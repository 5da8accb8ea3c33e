/**
 Who can get into a room that admits nobody by itself: every event of the room's history passed
 the auth rules against the state before it, and the join rule never opened the room.
 */
module InviteChain {
  import opened Orders
  import opened Json
  import opened Events
  import opened Auth
  import opened AuthChain

  /** A room's current state, as the events filling its slots. */
  type RoomState = map<Slot, Pdu>

  function AfterEvent(state: RoomState, event: Pdu): RoomState {
    match SlotOf(event)
    case Some(slot) => state[slot := event]
    case None => state
  }

  /** Last write wins, slot by slot. */
  function StateAfter(history: seq<Pdu>): RoomState {
    if history == [] then map[] else AfterEvent(StateAfter(history[..|history| - 1]), history[|history| - 1])
  }

  /** The event is the last of the history for the slot. */
  ghost predicate LastFor(history: seq<Pdu>, slot: Slot, e: Pdu, i: nat) {
    && i < |history| && history[i] == e && FillsSlot(e, slot)
    && forall j | i < j < |history| :: !FillsSlot(history[j], slot)
  }

  predicate FillsSlot(e: Pdu, slot: Slot) {
    e.kind == slot.kind && e.stateKey == Some(slot.stateKey)
  }

  /** A slot of the state after a history holds the last event of that type and state key. */
  lemma {:induction false} StateIsLast(history: seq<Pdu>, slot: Slot, e: Pdu)
    ensures slot in StateAfter(history) && StateAfter(history)[slot] == e <==> exists i :: LastFor(history, slot, e, i)
  {
    if history != [] {
      var n := |history| - 1;
      StateIsLast(history[..n], slot, e);
      if FillsSlot(history[n], slot) {
        assert history[n] == e ==> LastFor(history, slot, e, n);
      } else {
        if i: nat :| LastFor(history[..n], slot, e, i) {
          assert forall j | i < j < n :: history[j] == history[..n][j];
          assert LastFor(history, slot, e, i);
        }
        if i: nat :| LastFor(history, slot, e, i) {
          assert i < n;
          assert forall j | i < j < n :: history[j] == history[..n][j];
          assert LastFor(history[..n], slot, e, i);
        }
      }
    }
  }

  /** The state's events in slot order: what the rules are checked against. */
  function StateEvents(state: RoomState): seq<Pdu> {
    SlotLessIsStrictTotal();
    EventsAt(Ascending(SlotLess, state.Keys), state)
  }

  function EventsAt(slots: seq<Slot>, state: RoomState): (r: seq<Pdu>)
    ensures forall s | s in slots && s in state :: state[s] in r
    ensures forall p | p in r :: exists s :: s in slots && s in state && state[s] == p
  {
    if slots == [] then []
    else
      var rest := EventsAt(slots[1..], state);
      assert forall s :: s in slots <==> s == slots[0] || s in slots[1..];
      if slots[0] in state then [state[slots[0]]] + rest else rest
  }

  /** Each event sits in its own slot. */
  ghost predicate Coherent(state: RoomState) {
    forall s | s in state :: SlotOf(state[s]) == Some(s)
  }

  lemma {:induction false} StateIsCoherent(history: seq<Pdu>)
    ensures Coherent(StateAfter(history))
  {
    if history != [] {
      StateIsCoherent(history[..|history| - 1]);
    }
  }

  lemma StateEventsAreState(state: RoomState, p: Pdu)
    ensures p in StateEvents(state) <==> exists s :: s in state && state[s] == p
  {
    SlotLessIsStrictTotal();
    AscendingIsSorted(SlotLess, state.Keys);
    var slots := Ascending(SlotLess, state.Keys);
    if exists s :: s in state && state[s] == p {
      var s :| s in state && state[s] == p;
      assert s in slots;
    }
  }

  // ---------------------------------------------------------------------------
  // The view of a coherent state
  // ---------------------------------------------------------------------------

  /** `event` is the member event of `user`, saying `membership`. */
  predicate Sets(event: Pdu, user: string, membership: string) {
    event.kind == ROOM_MEMBER && event.stateKey == Some(user) && MembershipOf(event) == Some(membership)
  }

  lemma ObserveMembers(view: AuthView, event: Pdu, user: string)
    ensures var more := Observe(view, event).members;
            if exists m :: Sets(event, user, m) then more == view.members + [(user, MembershipOf(event).value)]
            else FirstValue(more, user) == FirstValue(view.members, user)
  {
    hide MembershipOf, Content;
    if event.kind == ROOM_MEMBER && event.stateKey.Some? && MembershipOf(event).Some? {
      FirstValueSnoc(view.members, event.stateKey.value, MembershipOf(event).value, user);
      if event.stateKey == Some(user) {
        assert Sets(event, user, MembershipOf(event).value);
      }
    }
  }

  lemma {:induction false} FirstValueSnoc(pairs: seq<(string, string)>, key: string, value: string, user: string)
    ensures FirstValue(pairs + [(key, value)], user)
         == if FirstValue(pairs, user).Some? then FirstValue(pairs, user)
            else if key == user then Some(value) else None
  {
    if pairs != [] {
      assert (pairs + [(key, value)])[1..] == pairs[1..] + [(key, value)];
      FirstValueSnoc(pairs[1..], key, value, user);
    }
  }

  /** A membership the view reports was set by some event it was built from. */
  lemma {:induction false} MembershipWasSet(events: seq<Pdu>, user: string)
    ensures ViewOf(events).Membership(user).Some? ==>
              exists e :: e in events && Sets(e, user, ViewOf(events).Membership(user).value)
  {
    hide Observe;
    if events != [] {
      var init, last := events[..|events| - 1], events[|events| - 1];
      MembershipWasSet(init, user);
      ObserveMembers(ViewOf(init), last, user);
      assert forall e :: e in events <==> e in init || e == last;
      if exists m :: Sets(last, user, m) {
        var m :| Sets(last, user, m);
        FirstValueSnoc(ViewOf(init).members, user, m, user);
      }
    }
  }

  /** With one event per slot, the reported membership is the one the user's slot says. */
  lemma MembershipInState(state: RoomState, user: string, membership: string)
    requires Coherent(state) && ViewOf(StateEvents(state)).Membership(user) == Some(membership)
    ensures Slot(ROOM_MEMBER, user) in state && Sets(state[Slot(ROOM_MEMBER, user)], user, membership)
  {
    hide StateEvents, ViewOf, MembershipOf;
    MembershipWasSet(StateEvents(state), user);
    var e :| e in StateEvents(state) && Sets(e, user, membership);
    StateEventsAreState(state, e);
    var s :| s in state && state[s] == e;
    assert SlotOf(state[s]) == Some(s);
  }

  // ---------------------------------------------------------------------------
  // Authorized histories
  // ---------------------------------------------------------------------------

  ghost function ViewAt(history: seq<Pdu>): AuthView {
    ViewOf(StateEvents(StateAfter(history)))
  }

  /** Every event was authorized against the state before it. */
  ghost predicate Authorized(history: seq<Pdu>, sig: SigCheck) {
    forall i | 0 <= i < |history| :: CheckAuthIn(history[i], ViewAt(history[..i]), sig).Ok?
  }

  predicate OpensRoom(rule: string) {
    rule == "public" || rule == "restricted" || rule == "knock_restricted"
  }

  ghost predicate NeverOpened(history: seq<Pdu>) {
    forall i | 0 <= i <= |history| :: !OpensRoom(ViewAt(history[..i]).JoinRule())
  }

  /** `user`'s member event currently says "join". */
  ghost predicate JoinedAt(history: seq<Pdu>, user: string) {
    var slot := Slot(ROOM_MEMBER, user);
    slot in StateAfter(history) && Sets(StateAfter(history)[slot], user, "join")
  }

  /** At position i of the history, `inviter`, joined at that moment, invited `user`. */
  ghost predicate IsInvite(history: seq<Pdu>, i: int, inviter: string, user: string)
    requires 0 <= i < |history|
  {
    history[i].sender == inviter && Sets(history[i], user, "invite") && JoinedAt(history[..i], inviter)
  }

  /** The room's creator at some point, according to its create event. */
  ghost predicate WasCreator(history: seq<Pdu>, user: string) {
    exists i :: 0 <= i <= |history| && ViewAt(history[..i]).Creator() == Some(user)
  }

  /** A chain of invitations from the creator to `user`, each later in the history than the one before it. */
  ghost predicate IsChain(history: seq<Pdu>, chain: seq<string>, invites: seq<nat>, user: string) {
    && chain != [] && WasCreator(history, chain[0]) && chain[|chain| - 1] == user
    && |invites| == |chain| - 1
    && (forall k | 0 <= k < |invites| :: invites[k] < |history| && IsInvite(history, invites[k], chain[k], chain[k + 1]))
    && (forall k | 0 <= k < |invites| - 1 :: invites[k] < invites[k + 1])
  }

  ghost predicate Linked(history: seq<Pdu>, user: string) {
    exists chain, invites :: IsChain(history, chain, invites, user)
  }

  lemma InviteLasts(prefix: seq<Pdu>, history: seq<Pdu>, i: nat, inviter: string, user: string)
    requires prefix <= history && i < |prefix| && IsInvite(prefix, i, inviter, user)
    ensures IsInvite(history, i, inviter, user)
  {
    hide JoinedAt, Sets;
    assert prefix[..i] == history[..i];
  }

  lemma CreatorLasts(prefix: seq<Pdu>, history: seq<Pdu>, user: string)
    requires prefix <= history && WasCreator(prefix, user)
    ensures WasCreator(history, user)
  {
    hide ViewAt;
    var i :| 0 <= i <= |prefix| && ViewAt(prefix[..i]).Creator() == Some(user);
    assert prefix[..i] == history[..i];
  }

  lemma ChainLasts(prefix: seq<Pdu>, history: seq<Pdu>, user: string)
    requires prefix <= history && Linked(prefix, user)
    ensures Linked(history, user)
  {
    hide IsInvite, WasCreator;
    var chain, invites :| IsChain(prefix, chain, invites, user);
    CreatorLasts(prefix, history, chain[0]);
    forall k | 0 <= k < |invites| ensures IsInvite(history, invites[k], chain[k], chain[k + 1]) {
      InviteLasts(prefix, history, invites[k], chain[k], chain[k + 1]);
    }
    assert IsChain(history, chain, invites, user);
  }

  /** A user linked before event `i` extends the chain by inviting at `i`. */
  lemma ChainGrows(history: seq<Pdu>, i: nat, inviter: string, user: string)
    requires i < |history| && Linked(history[..i], inviter) && IsInvite(history, i, inviter, user)
    ensures Linked(history, user)
  {
    hide IsInvite, WasCreator;
    var chain, invites :| IsChain(history[..i], chain, invites, inviter);
    var longer, more := chain + [user], invites + [i];
    CreatorLasts(history[..i], history, chain[0]);
    forall k | 0 <= k < |more| ensures more[k] < |history| && IsInvite(history, more[k], longer[k], longer[k + 1]) {
      if k < |invites| {
        InviteLasts(history[..i], history, invites[k], chain[k], chain[k + 1]);
      }
    }
    assert IsChain(history, longer, more, user);
  }

  lemma CreatorIsLinked(history: seq<Pdu>, user: string)
    requires WasCreator(history, user)
    ensures Linked(history, user)
  {
    assert IsChain(history, [user], [], user);
  }

  /** How the rules let a user join a room that is not open: as its creator, or on an invite. */
  lemma JoinNeedsReason(event: Pdu, view: AuthView, sig: SigCheck, user: string)
    requires CheckAuthIn(event, view, sig).Ok? && Sets(event, user, "join") && !OpensRoom(view.JoinRule())
    ensures event.sender == user
    ensures view.Creator() == Some(user) || view.Membership(user) == Some("invite")
  {
  }

  /** An invite is sent by someone joined at that moment. */
  lemma InviteNeedsMember(event: Pdu, view: AuthView, sig: SigCheck, user: string)
    requires CheckAuthIn(event, view, sig).Ok? && Sets(event, user, "invite")
    ensures view.Membership(event.sender) == Some("join")
  {
    hide ThirdPartyInviteIsValid;
  }

  /** The event filling a slot is one of the history, the last to fill it. */
  lemma {:induction false} SlotFilledBy(history: seq<Pdu>, slot: Slot) returns (i: nat)
    requires slot in StateAfter(history)
    ensures i < |history| && history[i] == StateAfter(history)[slot]
  {
    var n := |history| - 1;
    if SlotOf(history[n]) == Some(slot) {
      i := n;
    } else {
      i := SlotFilledBy(history[..n], slot);
    }
  }

  lemma ViewedJoin(history: seq<Pdu>, user: string)
    requires ViewAt(history).Membership(user) == Some("join")
    ensures JoinedAt(history, user)
  {
    hide ViewOf, StateEvents, Sets;
    StateIsCoherent(history);
    MembershipInState(StateAfter(history), user, "join");
  }

  /** A pending invite in the current state was sent by a user joined when sending it. */
  lemma PendingInvite(history: seq<Pdu>, sig: SigCheck, user: string) returns (i: nat)
    requires Authorized(history, sig) && ViewAt(history).Membership(user) == Some("invite")
    ensures i < |history| && IsInvite(history, i, history[i].sender, user)
  {
    hide ViewOf, StateEvents, CheckAuthIn, Sets;
    StateIsCoherent(history);
    MembershipInState(StateAfter(history), user, "invite");
    i := SlotFilledBy(history, Slot(ROOM_MEMBER, user));
    InviteNeedsMember(history[i], ViewAt(history[..i]), sig, user);
    ViewedJoin(history[..i], history[i].sender);
  }

  lemma PrefixIsAuthorized(history: seq<Pdu>, sig: SigCheck, n: nat)
    requires Authorized(history, sig) && NeverOpened(history) && n <= |history|
    ensures Authorized(history[..n], sig) && NeverOpened(history[..n])
  {
    hide CheckAuthIn, ViewAt, OpensRoom;
    forall i | 0 <= i < n ensures CheckAuthIn(history[..n][i], ViewAt(history[..n][..i]), sig).Ok? {
      assert history[..n][..i] == history[..i];
    }
    forall i | 0 <= i <= n ensures !OpensRoom(ViewAt(history[..n][..i]).JoinRule()) {
      assert history[..n][..i] == history[..i];
    }
  }

  /**
   In a room whose join rule never opened it, every joined user is the creator or stands at the
   end of a chain of invites from the creator, each later than the last and sent by someone joined
   at the time.
   */
  lemma {:induction false} JoinedMeansInvited(history: seq<Pdu>, sig: SigCheck, user: string)
    requires Authorized(history, sig) && NeverOpened(history) && JoinedAt(history, user)
    ensures Linked(history, user)
    decreases |history|
  {
    hide ViewOf, StateEvents, CheckAuthIn, Linked, OpensRoom, IsInvite, Authorized, NeverOpened;
    var n := |history| - 1;
    var before, event := history[..n], history[n];
    var slot := Slot(ROOM_MEMBER, user);
    PrefixIsAuthorized(history, sig, n);
    if SlotOf(event) != Some(slot) {
      JoinedMeansInvited(before, sig, user);
      ChainLasts(before, history, user);
    } else {
      AuthorizedAt(history, sig, n);
      JoinNeedsReason(event, ViewAt(before), sig, user);
      if ViewAt(before).Creator() == Some(user) {
        assert history[..n] == before;
        CreatorIsLinked(history, user);
      } else {
        var i := PendingInvite(before, sig, user);
        var inviter := before[i].sender;
        InviterWasJoined(before, i, inviter, user);
        PrefixIsAuthorized(before, sig, i);
        JoinedMeansInvited(before[..i], sig, inviter);
        ChainGrows(before, i, inviter, user);
        ChainLasts(before, history, user);
      }
    }
  }

  lemma AuthorizedAt(history: seq<Pdu>, sig: SigCheck, n: nat)
    requires Authorized(history, sig) && NeverOpened(history) && n < |history|
    ensures CheckAuthIn(history[n], ViewAt(history[..n]), sig).Ok?
    ensures !OpensRoom(ViewAt(history[..n]).JoinRule())
  {
    hide CheckAuthIn, ViewAt, OpensRoom;
  }

  lemma InviterWasJoined(history: seq<Pdu>, i: nat, inviter: string, user: string)
    requires i < |history| && IsInvite(history, i, inviter, user)
    ensures JoinedAt(history[..i], inviter)
  {
    hide JoinedAt, Sets;
  }

  // ---------------------------------------------------------------------------
  // One creator for ever
  // ---------------------------------------------------------------------------

  ghost predicate HoldsCreate(state: RoomState, slot: Slot, event: Pdu) {
    slot in state && state[slot] == event && event.kind == ROOM_CREATE
  }

  /** The view's create event is the state's, when the state has just one. */
  lemma CreateInView(history: seq<Pdu>, event: Pdu)
    requires ViewAt(history).create == Some(event)
    ensures exists s :: HoldsCreate(StateAfter(history), s, event)
  {
    hide ViewOf, StateEvents, StateAfter;
    CreateSeen(StateEvents(StateAfter(history)));
    StateEventsAreState(StateAfter(history), event);
    var s :| s in StateAfter(history) && StateAfter(history)[s] == event;
    assert HoldsCreate(StateAfter(history), s, event);
  }

  lemma NoCreateInView(history: seq<Pdu>)
    requires ViewAt(history).create == None
    ensures forall s, e :: !HoldsCreate(StateAfter(history), s, e)
  {
    hide ViewOf, StateEvents, StateAfter;
    CreateSeen(StateEvents(StateAfter(history)));
    forall s, e ensures !HoldsCreate(StateAfter(history), s, e) {
      StateEventsAreState(StateAfter(history), e);
    }
  }

  ghost predicate OnlyCreate(state: RoomState, event: Pdu) {
    && (exists s :: HoldsCreate(state, s, event))
    && forall s, e | HoldsCreate(state, s, e) :: e == event
  }

  lemma CreateSurvives(state: RoomState, event: Pdu, next: Pdu)
    requires Coherent(state) && OnlyCreate(state, event) && next.kind != ROOM_CREATE
    ensures OnlyCreate(AfterEvent(state, next), event)
  {
    var s :| HoldsCreate(state, s, event);
    assert SlotOf(state[s]) == Some(s);
    assert HoldsCreate(AfterEvent(state, next), s, event);
    forall t, e | HoldsCreate(AfterEvent(state, next), t, e) ensures e == event {
      assert HoldsCreate(state, t, e);
    }
  }

  lemma ViewShowsOnlyCreate(history: seq<Pdu>, event: Pdu)
    requires OnlyCreate(StateAfter(history), event)
    ensures ViewAt(history).create == Some(event)
  {
    hide ViewAt, StateAfter, HoldsCreate;
    if ViewAt(history).create == None {
      NoCreateInView(history);
    } else {
      CreateInView(history, ViewAt(history).create.value);
    }
  }

  lemma AuthorizedStep(history: seq<Pdu>, sig: SigCheck)
    requires Authorized(history, sig) && history != []
    ensures Authorized(history[..|history| - 1], sig)
    ensures CheckAuthIn(history[|history| - 1], ViewAt(history[..|history| - 1]), sig).Ok?
  {
    hide CheckAuthIn, ViewAt;
    var n := |history| - 1;
    forall k | 0 <= k < n ensures CheckAuthIn(history[..n][k], ViewAt(history[..n][..k]), sig).Ok? {
      assert history[..n][..k] == history[..k];
    }
  }

  lemma NotASecondCreate(event: Pdu, view: AuthView, sig: SigCheck)
    requires CheckAuthIn(event, view, sig).Ok? && view.create.Some?
    ensures event.kind != ROOM_CREATE
  {
  }

  /** Once the room has a create event, no later event replaces it or adds another. */
  lemma {:induction false} CreateStays(history: seq<Pdu>, sig: SigCheck, i: nat, event: Pdu)
    requires Authorized(history, sig) && i <= |history| && ViewAt(history[..i]).create == Some(event)
    ensures OnlyCreate(StateAfter(history), event) && ViewAt(history).create == Some(event)
    decreases |history|
  {
    hide ViewAt, CheckAuthIn, Authorized, HoldsCreate, AfterEvent;
    if i == |history| {
      assert history[..i] == history;
      OneCreate(history, sig);
      CreateInView(history, event);
    } else {
      var n := |history| - 1;
      var before := history[..n];
      assert before[..i] == history[..i];
      AuthorizedStep(history, sig);
      CreateStays(before, sig, i, event);
      NotASecondCreate(history[n], ViewAt(before), sig);
      StateIsCoherent(before);
      CreateSurvives(StateAfter(before), event, history[n]);
      ViewShowsOnlyCreate(history, event);
    }
  }

  lemma {:induction false} OneCreate(history: seq<Pdu>, sig: SigCheck)
    requires Authorized(history, sig)
    ensures forall s, e, t, f | HoldsCreate(StateAfter(history), s, e) && HoldsCreate(StateAfter(history), t, f) :: e == f
  {
    hide ViewAt, CheckMemberAuth, Authorized;
    if history != [] {
      var n := |history| - 1;
      var before := history[..n];
      AuthorizedStep(history, sig);
      OneCreate(before, sig);
      if history[n].kind == ROOM_CREATE {
        NoCreateInView(before);
      }
      forall s, e, t, f | HoldsCreate(StateAfter(history), s, e) && HoldsCreate(StateAfter(history), t, f) ensures e == f {
        assert e == history[n] || HoldsCreate(StateAfter(before), s, e);
        assert f == history[n] || HoldsCreate(StateAfter(before), t, f);
      }
    }
  }

  /** So "the creator" an invite chain starts from is one and the same user throughout. */
  lemma CreatorIsFixed(history: seq<Pdu>, sig: SigCheck, a: string, b: string)
    requires Authorized(history, sig) && WasCreator(history, a) && WasCreator(history, b)
    ensures a == b
  {
    hide ViewAt, Authorized;
    var i :| 0 <= i <= |history| && ViewAt(history[..i]).Creator() == Some(a);
    var j :| 0 <= j <= |history| && ViewAt(history[..j]).Creator() == Some(b);
    CreateStays(history, sig, i, ViewAt(history[..i]).create.value);
    CreateStays(history, sig, j, ViewAt(history[..j]).create.value);
  }
}
