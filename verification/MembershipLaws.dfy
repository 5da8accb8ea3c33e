/**
 How membership can change in an authorized history: who may put whom into which membership, and
 which levels that takes, read off the room's state rather than off a single check.
 */
module MembershipLaws {
  import opened Auth
  import opened AuthRules
  import opened Contents
  import opened Events
  import opened InviteChain
  import opened Json
  import opened Orders

  /** The user's membership in the current state. */
  function StandingOf(state: RoomState, user: string): Option<string> {
    var slot := Slot(ROOM_MEMBER, user);
    if slot in state then MembershipOf(state[slot]) else None
  }

  ghost function Standing(history: seq<Pdu>, user: string): Option<string> {
    StandingOf(StateAfter(history), user)
  }

  /** A member event among those a view was built from is seen in it. */
  lemma {:induction false} MemberIsSeen(events: seq<Pdu>, e: Pdu, user: string, membership: string)
    requires e in events && Sets(e, user, membership)
    ensures ViewOf(events).Membership(user).Some?
  {
    hide Observe, MembershipOf;
    var init, last := events[..|events| - 1], events[|events| - 1];
    assert forall x :: x in events <==> x in init || x == last;
    ObserveMembers(ViewOf(init), last, user);
    if exists m :: Sets(last, user, m) {
      FirstValueSnoc(ViewOf(init).members, user, MembershipOf(last).value, user);
    } else {
      assert e in init;
      MemberIsSeen(init, e, user, membership);
    }
  }

  /** The view reports exactly what the user's slot says. */
  lemma ViewedStanding(history: seq<Pdu>, user: string)
    ensures ViewAt(history).Membership(user) == Standing(history, user)
  {
    hide StateEvents, ViewOf, MembershipOf;
    var state := StateAfter(history);
    var slot := Slot(ROOM_MEMBER, user);
    StateIsCoherent(history);
    if ViewAt(history).Membership(user).Some? {
      MembershipInState(state, user, ViewAt(history).Membership(user).value);
    } else if Standing(history, user).Some? {
      assert SlotOf(state[slot]) == Some(slot);
      assert Sets(state[slot], user, Standing(history, user).value);
      StateEventsAreState(state, state[slot]);
      MemberIsSeen(StateEvents(state), state[slot], user, Standing(history, user).value);
    }
  }

  /** An event leaves every standing alone except that of the user whose member slot it fills. */
  lemma StandingAfter(history: seq<Pdu>, i: nat, user: string)
    requires i < |history|
    ensures Standing(history[..i + 1], user) ==
      if SlotOf(history[i]) == Some(Slot(ROOM_MEMBER, user)) then MembershipOf(history[i]) else Standing(history[..i], user)
  {
    hide MembershipOf;
    assert history[..i + 1][..i] == history[..i];
  }

  /** The rules' verdict on event `i`, with the standings the state gives. */
  lemma AllowedAt(history: seq<Pdu>, sig: SigCheck, i: nat)
    requires Authorized(history, sig) && i < |history|
    ensures CheckAuthIn(history[i], ViewAt(history[..i]), sig).Ok?
  {
    hide CheckAuthIn, ViewAt;
  }

  /** The events the rules read the room from. */
  ghost function Listed(history: seq<Pdu>): seq<Pdu> {
    StateEvents(StateAfter(history))
  }

  /** A joined user whose level is above the target's and at least what the room asks for the action. */
  ghost predicate Outranks(history: seq<Pdu>, sender: string, target: string, action: string, fallback: int) {
    && Standing(history, sender) == Some("join")
    && Above(Listed(history), sender, target)
    && Reaches(Listed(history), sender, action, fallback)
  }

  /** Ways into the room: as its creator, on an invite, or by a rule that opens it. */
  ghost predicate MayEnter(history: seq<Pdu>, e: Pdu) {
    var state := Listed(history);
    || (IsCreator(state, e.sender) && Standing(history, e.sender) == None)
    || Standing(history, e.sender) == Some("invite")
    || RoomRule(state, "public")
    || ((RoomRule(state, "restricted") || RoomRule(state, "knock_restricted")) && VouchedFor(state, e))
  }

  ghost predicate MayInvite(history: seq<Pdu>, e: Pdu, sig: SigCheck) {
    && Standing(history, e.sender) == Some("join")
    && (Redeems(Listed(history), e, sig) || Reaches(Listed(history), e.sender, "invite", 0))
  }

  /** The table of membership changes, by where they lead. */
  ghost predicate MayChange(history: seq<Pdu>, e: Pdu, target: string, now: string, sig: SigCheck) {
    var was, own := Standing(history, target), e.sender == target;
    || (now == "join" && own && was != Some("ban") && MayEnter(history, e))
    || (now == "invite" && was != Some("join") && was != Some("ban") && MayInvite(history, e, sig))
    || (now == "leave" && (own || Outranks(history, e.sender, target, "kick", 50)))
    || (now == "ban" && Outranks(history, e.sender, target, "ban", 50))
    || (now == "knock" && own && was != Some("join") && was != Some("ban")
        && (RoomRule(Listed(history), "knock") || RoomRule(Listed(history), "knock_restricted")))
  }

  lemma StandingIs(history: seq<Pdu>, user: string)
    ensures forall m :: Stands(Listed(history), user, m) <==> Standing(history, user) == Some(m)
    ensures Unlisted(Listed(history), user) <==> Standing(history, user) == None
  {
    hide StateEvents, Standing, AuthView.Membership;
    ViewedStanding(history, user);
    MembershipStands(Listed(history), user);
  }

  /** A member event is accepted exactly when its change is in the table, read off the current state. */
  lemma MemberVerdict(history: seq<Pdu>, e: Pdu, target: string, sig: SigCheck)
    requires e.kind == ROOM_MEMBER && e.stateKey == Some(target) && HasKind(Listed(history), ROOM_CREATE)
    ensures CheckAuthIn(e, ViewAt(history), sig).Ok? <==>
      exists now :: Says(e, "membership", Str(now)) && MayChange(history, e, target, now, sig)
  {
    hide Listed, Standing, Stands, Unlisted, Says, Redeems, Reaches, Above, RoomRule, IsCreator, VouchedFor, HasKind, CheckAuthIn;
    AuthorizedIff(Listed(history), e, sig);
    ListedView(history, e, sig);
    StandingIs(history, target);
    StandingIs(history, e.sender);
    forall now ensures MayChange(history, e, target, now, sig) <==> MayLead(Listed(history), e, target, now, sig) {
    }
  }

  lemma ListedView(history: seq<Pdu>, e: Pdu, sig: SigCheck)
    ensures CheckAuth(e, Listed(history), sig) == CheckAuthIn(e, ViewAt(history), sig)
  {
  }

  lemma OpenAt(history: seq<Pdu>, e: Pdu, sig: SigCheck)
    requires CheckAuthIn(e, ViewAt(history), sig).Ok? && e.kind != ROOM_CREATE
    ensures HasKind(Listed(history), ROOM_CREATE)
  {
    hide Permitted;
    AuthorizedIff(Listed(history), e, sig);
    ListedView(history, e, sig);
    NeedsCreate(Listed(history), e, sig);
  }

  lemma NeedsCreate(state: seq<Pdu>, e: Pdu, sig: SigCheck)
    requires Permitted(state, e, sig) && e.kind != ROOM_CREATE
    ensures HasKind(state, ROOM_CREATE)
  {
    hide MayLead, MaySend, HasKind;
  }

  /** What the rules demand of one change of `target`'s membership, by the membership it leads to. */
  lemma ChangeNeeds(history: seq<Pdu>, sig: SigCheck, i: nat, target: string)
    requires Authorized(history, sig) && i < |history| && SlotOf(history[i]) == Some(Slot(ROOM_MEMBER, target))
    ensures var before, sender := history[..i], history[i].sender;
      var was := Standing(before, target);
      match MembershipOf(history[i])
      case None => false
      case Some(now) =>
        || (now == "join" && sender == target && was != Some("ban"))
        || (now == "invite" && Standing(before, sender) == Some("join") && was != Some("join") && was != Some("ban"))
        || (now == "leave" && (sender == target || Outranks(before, sender, target, "kick", 50)))
        || (now == "ban" && Outranks(before, sender, target, "ban", 50))
        || (now == "knock" && sender == target && was != Some("join") && was != Some("ban"))
  {
    hide ViewAt, Standing, MembershipOf, MayEnter, MayInvite, Outranks, CheckMemberAuth, HasKind, Says, RoomRule;
    AllowedAt(history, sig, i);
    OpenAt(history[..i], history[i], sig);
    MemberVerdict(history[..i], history[i], target, sig);
    MembershipIs(history[i]);
    InvitesFromWithin(history[..i], history[i], sig);
  }

  lemma InvitesFromWithin(history: seq<Pdu>, e: Pdu, sig: SigCheck)
    ensures MayInvite(history, e, sig) ==> Standing(history, e.sender) == Some("join")
  {
    hide Listed, Standing, Redeems, Reaches;
  }

  /** Nobody is ever joined by anybody else. */
  lemma JoinsAreOwn(history: seq<Pdu>, sig: SigCheck, i: nat, user: string)
    requires Authorized(history, sig) && i < |history|
    requires Standing(history[..i], user) != Some("join") && Standing(history[..i + 1], user) == Some("join")
    ensures history[i].sender == user && Standing(history[..i], user) != Some("ban")
  {
    hide Standing, MembershipOf, Outranks;
    StandingAfter(history, i, user);
    ChangeNeeds(history, sig, i, user);
  }

  /** A joined user stops being joined by leaving, or at the hands of a joined user who outranks them. */
  lemma MembersAreRemovedByRank(history: seq<Pdu>, sig: SigCheck, i: nat, user: string)
    requires Authorized(history, sig) && i < |history|
    requires Standing(history[..i], user) == Some("join") && Standing(history[..i + 1], user) != Some("join")
    ensures var before, sender, now := history[..i], history[i].sender, Standing(history[..i + 1], user);
      || (now == Some("leave") && sender == user)
      || (now == Some("leave") && Outranks(before, sender, user, "kick", 50))
      || (now == Some("ban") && Outranks(before, sender, user, "ban", 50))
  {
    hide Standing, MembershipOf, Outranks;
    StandingAfter(history, i, user);
    ChangeNeeds(history, sig, i, user);
  }

  /** A banned user's next membership is "leave" (or another ban): there is no way straight back in. */
  lemma BansEndInLeave(history: seq<Pdu>, sig: SigCheck, i: nat, user: string)
    requires Authorized(history, sig) && i < |history|
    requires Standing(history[..i], user) == Some("ban") && Standing(history[..i + 1], user) != Some("ban")
    ensures Standing(history[..i + 1], user) == Some("leave")
  {
    hide Standing, MembershipOf, Outranks;
    StandingAfter(history, i, user);
    ChangeNeeds(history, sig, i, user);
  }

  /** Every event but the create and member events was sent by a joined user with the level it takes. */
  lemma OnlyMembersSend(history: seq<Pdu>, sig: SigCheck, i: nat)
    requires Authorized(history, sig) && i < |history|
    requires history[i].kind != ROOM_CREATE && history[i].kind != ROOM_MEMBER
    ensures var before, e := history[..i], history[i];
      && Standing(before, e.sender) == Some("join")
      && (e.kind != ROOM_REDACTION ==> ReachesEvent(Listed(before), e.sender, e.kind, e.stateKey.Some?))
      && (e.kind == ROOM_REDACTION && !RedactsOwnServer(e) ==> Reaches(Listed(before), e.sender, "redact", 50))
  {
    hide ViewAt, Standing, RedactsOwnServer, Reaches, ReachesEvent, Stands, HasKind, CheckAuthIn, Listed;
    AllowedAt(history, sig, i);
    AuthorizedIff(Listed(history[..i]), history[i], sig);
    ListedView(history[..i], history[i], sig);
    StandingIs(history[..i], history[i].sender);
  }

  // ---------------------------------------------------------------------------
  // The levels a room sets
  // ---------------------------------------------------------------------------

  /** `pl` is the content of the room's one power-levels event. */
  ghost predicate SetsLevels(history: seq<Pdu>, pl: Json) {
    var state, slot := StateAfter(history), Slot(ROOM_POWER_LEVELS, "");
    slot in state && Parse(state[slot].contentJson) == Ok(pl) && forall s | s in state && s.kind == ROOM_POWER_LEVELS :: s == slot
  }

  lemma OneListed(history: seq<Pdu>, kind: string, e: Pdu)
    requires var state, slot := StateAfter(history), Slot(kind, "");
      slot in state && state[slot] == e && forall s | s in state && s.kind == kind :: s == slot
    ensures Governs(Listed(history), kind, e)
    ensures forall other :: Governs(Listed(history), kind, other) ==> other == e
  {
    hide StateEvents, StateAfter;
    var state := StateAfter(history);
    StateIsCoherent(history);
    LastOfGoverns(Listed(history), kind);
    StateEventsAreState(state, e);
    assert SlotOf(state[Slot(kind, "")]) == Some(Slot(kind, ""));
    forall other | other in Listed(history) && other.kind == kind ensures other == e {
      StateEventsAreState(state, other);
      var s :| s in state && state[s] == other;
      assert SlotOf(state[s]) == Some(s);
    }
  }

  lemma LevelsAreListed(history: seq<Pdu>, pl: Json)
    requires SetsLevels(history, pl)
    ensures forall other :: Configured(Listed(history), other) <==> other == pl
    ensures WellFormed(pl)
  {
    hide StateAfter, Governs, Listed;
    var e := StateAfter(history)[Slot(ROOM_POWER_LEVELS, "")];
    OneListed(history, ROOM_POWER_LEVELS, e);
    ContentIs(e);
  }

  /** The sender's level reaches `n`, and is above the target's. */
  ghost predicate Ranks(pl: Json, sender: string, target: string, n: int) {
    forall p, q | PowerFrom(pl, sender, p) && PowerFrom(pl, target, q) :: p >= n && p > q
  }

  /**
   The numbers in the content of a room's power-levels event bind: whoever bans, kicks, invites, redacts
   or sends has the level it sets for that, or the default it leaves.
   */
  lemma SetLevelsBind(history: seq<Pdu>, sig: SigCheck, i: nat, pl: Json, n: int, p: int)
    requires Authorized(history, sig) && i < |history| && SetsLevels(history[..i], pl)
    requires PowerFrom(pl, history[i].sender, p)
    ensures var e, before := history[i], history[..i];
      && (forall target | SlotOf(e) == Some(Slot(ROOM_MEMBER, target)) && e.sender != target ::
            && (Says(e, "membership", Str("ban")) && LevelFrom(pl, "ban", 50, n) ==> Ranks(pl, e.sender, target, n))
            && (Says(e, "membership", Str("leave")) && LevelFrom(pl, "kick", 50, n) ==> Ranks(pl, e.sender, target, n))
            && (Says(e, "membership", Str("invite")) && LevelFrom(pl, "invite", 0, n) ==> p >= n || Redeems(Listed(before), e, sig)))
      && (e.kind == ROOM_REDACTION && LevelFrom(pl, "redact", 50, n) ==> p >= n || RedactsOwnServer(e))
      && (e.kind !in [ROOM_CREATE, ROOM_MEMBER, ROOM_REDACTION] && EventLevelFrom(pl, e.kind, e.stateKey.Some?, n) ==> p >= n)
  {
    hide Listed, PowerFrom, LevelFrom, EventLevelFrom, Redeems, RedactsOwnServer, Says, Configured, SetsLevels, Ranks, StateAfter, Standing;
    var e, before := history[i], history[..i];
    LevelsAreListed(before, pl);
    if e.kind !in [ROOM_CREATE, ROOM_MEMBER] {
      OnlyMembersSend(history, sig, i);
      if LevelFrom(pl, "redact", 50, n) { ReachedLevel(before, pl, e.sender, p, "redact", 50, n); }
      if EventLevelFrom(pl, e.kind, e.stateKey.Some?, n) { ReachedEventLevel(before, pl, e.sender, p, e.kind, e.stateKey.Some?, n); }
    } else if target :| SlotOf(e) == Some(Slot(ROOM_MEMBER, target)) && e.sender != target {
      AllowedAt(history, sig, i);
      OpenAt(before, e, sig);
      MembersMeetLevels(before, sig, e, target, pl, n, p);
    }
  }

  lemma MembersMeetLevels(before: seq<Pdu>, sig: SigCheck, e: Pdu, target: string, pl: Json, n: int, p: int)
    requires forall other :: Configured(Listed(before), other) <==> other == pl
    requires WellFormed(pl) && PowerFrom(pl, e.sender, p) && HasKind(Listed(before), ROOM_CREATE)
    requires e.kind == ROOM_MEMBER && e.stateKey == Some(target) && e.sender != target
    requires CheckAuthIn(e, ViewAt(before), sig).Ok?
    ensures Says(e, "membership", Str("ban")) && LevelFrom(pl, "ban", 50, n) ==> Ranks(pl, e.sender, target, n)
    ensures Says(e, "membership", Str("leave")) && LevelFrom(pl, "kick", 50, n) ==> Ranks(pl, e.sender, target, n)
    ensures Says(e, "membership", Str("invite")) && LevelFrom(pl, "invite", 0, n) ==> p >= n || Redeems(Listed(before), e, sig)
  {
    hide Listed, PowerFrom, LevelFrom, Redeems, Says, Configured, Ranks, StateAfter, Standing, Outranks, Reaches, HasKind, MayEnter, RoomRule, CheckAuthIn, ViewAt;
    MemberVerdict(before, e, target, sig);
    OneMembership(e);
    if LevelFrom(pl, "ban", 50, n) { RankedLevel(before, pl, e.sender, target, "ban", 50, n); }
    if LevelFrom(pl, "kick", 50, n) { RankedLevel(before, pl, e.sender, target, "kick", 50, n); }
    if LevelFrom(pl, "invite", 0, n) { ReachedLevel(before, pl, e.sender, p, "invite", 0, n); }
  }

  lemma OneMembership(e: Pdu)
    ensures forall a, b | Says(e, "membership", Str(a)) && Says(e, "membership", Str(b)) :: a == b
  {
    MembershipIs(e);
    assert forall a | Says(e, "membership", Str(a)) :: MembershipOf(e) == Some(a);
  }

  lemma ReachedLevel(history: seq<Pdu>, pl: Json, user: string, p: int, key: string, fallback: int, n: int)
    requires forall other :: Configured(Listed(history), other) <==> other == pl
    requires WellFormed(pl) && PowerFrom(pl, user, p) && LevelFrom(pl, key, fallback, n)
    ensures Reaches(Listed(history), user, key, fallback) ==> p >= n
  {
    hide Listed, PowerFrom, LevelFrom, Configured;
    assert Configured(Listed(history), pl);
    RoomPowerIs(Listed(history), user);
    RoomLevelIs(Listed(history), key, fallback);
    assert RoomPower(Listed(history), user, p) && RoomLevel(Listed(history), key, fallback, n);
  }

  lemma ReachedEventLevel(history: seq<Pdu>, pl: Json, user: string, p: int, kind: string, isState: bool, n: int)
    requires forall other :: Configured(Listed(history), other) <==> other == pl
    requires WellFormed(pl) && PowerFrom(pl, user, p) && EventLevelFrom(pl, kind, isState, n)
    ensures ReachesEvent(Listed(history), user, kind, isState) ==> p >= n
  {
    hide Listed, PowerFrom, EventLevelFrom, Configured;
    assert Configured(Listed(history), pl);
    RoomPowerIs(Listed(history), user);
    RoomEventLevelIs(Listed(history), kind, isState);
    assert RoomPower(Listed(history), user, p) && RoomEventLevel(Listed(history), kind, isState, n);
  }

  lemma RankedLevel(history: seq<Pdu>, pl: Json, sender: string, target: string, key: string, fallback: int, n: int)
    requires forall other :: Configured(Listed(history), other) <==> other == pl
    requires WellFormed(pl) && LevelFrom(pl, key, fallback, n)
    ensures Outranks(history, sender, target, key, fallback) ==> Ranks(pl, sender, target, n)
  {
    hide Listed, PowerFrom, LevelFrom, Configured, Standing, RoomPower, RoomLevel, Reaches;
    forall p, q | PowerFrom(pl, sender, p) && PowerFrom(pl, target, q) && Outranks(history, sender, target, key, fallback)
      ensures p >= n && p > q
    {
      ReachedLevel(history, pl, sender, p, key, fallback, n);
      PowerInRoom(history, pl, sender, p);
      PowerInRoom(history, pl, target, q);
    }
  }

  lemma PowerInRoom(history: seq<Pdu>, pl: Json, user: string, p: int)
    requires forall other :: Configured(Listed(history), other) <==> other == pl
    requires PowerFrom(pl, user, p)
    ensures forall x :: RoomPower(Listed(history), user, x) ==> x == p
  {
    hide Listed, PowerFrom, Configured;
    assert Configured(Listed(history), pl);
    RoomPowerIs(Listed(history), user);
    assert RoomPower(Listed(history), user, p);
  }
}
