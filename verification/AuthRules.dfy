/**
 The rules in full, read off the listed state events and the members of their contents: who may do
 what, and that the check accepts exactly that.
 */
module AuthRules {
  import opened Orders
  import opened Text
  import opened Json
  import opened JsonRoundTrip
  import opened Events
  import opened Auth
  import opened Contents
  import opened InviteChain

  // ---------------------------------------------------------------------------
  // Which listed event counts
  // ---------------------------------------------------------------------------

  /** Of the events of a kind, the last one listed counts. */
  ghost predicate Governs(state: seq<Pdu>, kind: string, e: Pdu) {
    exists i :: LastAt(state, kind, e, i)
  }

  ghost predicate LastAt(state: seq<Pdu>, kind: string, e: Pdu, i: int) {
    0 <= i < |state| && state[i] == e && e.kind == kind && forall j | i < j < |state| :: state[j].kind != kind
  }

  ghost predicate HasKind(state: seq<Pdu>, kind: string) {
    exists e | e in state :: e.kind == kind
  }

  ghost predicate SetsMember(e: Pdu, user: string, membership: string) {
    e.kind == "m.room.member" && e.stateKey == Some(user) && Says(e, "membership", Str(membership))
  }

  /** Of a user's member events, the first one listed counts. */
  ghost predicate Stands(state: seq<Pdu>, user: string, membership: string) {
    exists i | 0 <= i < |state| ::
      SetsMember(state[i], user, membership) && forall j, m | 0 <= j < i :: !SetsMember(state[j], user, m)
  }

  ghost predicate Unlisted(state: seq<Pdu>, user: string) {
    forall e, m | e in state :: !SetsMember(e, user, m)
  }

  /** Of the third-party invites with a token, the first one listed counts; without a key it has the empty one. */
  ghost predicate Advertised(state: seq<Pdu>, token: string, key: string) {
    exists i | 0 <= i < |state| ::
      && IsThirdParty(state[i], token) && KeyGiven(state[i], key)
      && forall j | 0 <= j < i :: !IsThirdParty(state[j], token)
  }

  predicate IsThirdParty(e: Pdu, token: string) {
    e.kind == "m.room.third_party_invite" && e.stateKey == Some(token)
  }

  ghost predicate KeyGiven(e: Pdu, key: string) {
    Says(e, "public_key", Str(key)) || (key == "" && forall k :: !Says(e, "public_key", Str(k)))
  }

  ghost function LastOf(state: seq<Pdu>, kind: string): Option<Pdu> {
    if state == [] then None
    else if state[|state| - 1].kind == kind then Some(state[|state| - 1])
    else LastOf(state[..|state| - 1], kind)
  }

  lemma {:induction false} LastOfGoverns(state: seq<Pdu>, kind: string)
    ensures forall e :: LastOf(state, kind) == Some(e) <==> Governs(state, kind, e)
    ensures LastOf(state, kind).Some? <==> HasKind(state, kind)
  {
    if state != [] {
      var n := |state| - 1;
      var init := state[..n];
      LastOfGoverns(init, kind);
      assert forall x :: x in state <==> x in init || x == state[n];
      assert forall j | 0 <= j < n :: state[j] == init[j];
      if state[n].kind == kind {
        assert LastAt(state, kind, state[n], n);
      } else {
        forall e ensures Governs(init, kind, e) <==> Governs(state, kind, e) {
          LastOfOthers(state, kind, e);
        }
      }
    }
  }

  lemma LastOfOthers(state: seq<Pdu>, kind: string, e: Pdu)
    requires state != [] && state[|state| - 1].kind != kind
    ensures Governs(state[..|state| - 1], kind, e) <==> Governs(state, kind, e)
  {
    var n := |state| - 1;
    var init := state[..n];
    forall i ensures LastAt(init, kind, e, i) <==> LastAt(state, kind, e, i) {
      assert forall j | 0 <= j < n :: state[j] == init[j];
    }
  }

  ghost function ContentOf(e: Option<Pdu>): Option<Json> {
    match e case Some(p) => Content(p) case None => None
  }

  /** The view holds the last create event and the contents of the last power levels and join rules. */
  lemma {:induction false} ViewHoldsLast(state: seq<Pdu>)
    ensures ViewOf(state).create == LastOf(state, "m.room.create")
    ensures ViewOf(state).powerLevels == ContentOf(LastOf(state, "m.room.power_levels"))
    ensures ViewOf(state).joinRules == ContentOf(LastOf(state, "m.room.join_rules"))
  {
    hide Content;
    if state != [] {
      ViewHoldsLast(state[..|state| - 1]);
    }
  }

  lemma SetsIs(e: Pdu, user: string, membership: string)
    ensures Sets(e, user, membership) <==> SetsMember(e, user, membership)
  {
    MembershipIs(e);
  }

  /** One more event counts for a user only if none before it did. */
  lemma MembershipStep(init: seq<Pdu>, last: Pdu, user: string)
    ensures var before, after := ViewOf(init).Membership(user), ViewOf(init + [last]).Membership(user);
      forall m :: after == Some(m) <==> before == Some(m) || (before == None && SetsMember(last, user, m))
  {
    hide Observe, Says, MembershipOf;
    assert (init + [last])[..|init|] == init && ViewOf(init + [last]) == Observe(ViewOf(init), last);
    MembershipIs(last);
    assert forall m :: Sets(last, user, m) <==> SetsMember(last, user, m);
    ObserveMembers(ViewOf(init), last, user);
    if m :| Sets(last, user, m) {
      FirstValueSnoc(ViewOf(init).members, user, MembershipOf(last).value, user);
    }
  }

  lemma UnlistedSnoc(init: seq<Pdu>, last: Pdu, user: string)
    ensures Unlisted(init + [last], user) <==> Unlisted(init, user) && forall m :: !SetsMember(last, user, m)
  {
    hide SetsMember;
    assert forall x :: x in init + [last] <==> x in init || x == last;
  }

  /** The view's membership of a user is that of the first member event listed for them. */
  lemma {:induction false} MembershipStands(state: seq<Pdu>, user: string)
    ensures forall m :: ViewOf(state).Membership(user) == Some(m) <==> Stands(state, user, m)
    ensures ViewOf(state).Membership(user) == None <==> Unlisted(state, user)
  {
    if state == [] {
      NobodyStands(user);
    } else {
      hide ViewOf, Stands, Unlisted, SetsMember, AuthView.Membership;
      var n := |state| - 1;
      var init, last := state[..n], state[n];
      assert state == init + [last];
      MembershipStands(init, user);
      MembershipStep(init, last, user);
      UnlistedSnoc(init, last, user);
      StandsSnoc(init, last, user);
      var after := ViewOf(state).Membership(user);
      assert after.Some? ==> after == Some(after.value);
    }
  }

  lemma NobodyStands(user: string)
    ensures ViewOf([]).Membership(user) == None && Unlisted([], user) && forall m :: !Stands([], user, m)
  {
  }

  lemma StandsSnoc(init: seq<Pdu>, last: Pdu, user: string)
    ensures forall m :: Stands(init + [last], user, m) <==>
      Stands(init, user, m) || (Unlisted(init, user) && SetsMember(last, user, m))
  {
    hide Says;
    var state := init + [last];
    assert forall j | 0 <= j < |init| :: state[j] == init[j] && state[j] in init;
    forall m | Stands(init, user, m) ensures Stands(state, user, m) {
      var i :| 0 <= i < |init| && SetsMember(init[i], user, m) && forall j, k | 0 <= j < i :: !SetsMember(init[j], user, k);
      assert SetsMember(state[i], user, m);
    }
    if Unlisted(init, user) {
      forall m | SetsMember(last, user, m) ensures Stands(state, user, m) {
        assert SetsMember(state[|init|], user, m);
      }
    }
    forall m | Stands(state, user, m) ensures Stands(init, user, m) || (Unlisted(init, user) && SetsMember(last, user, m)) {
      var i :| 0 <= i < |state| && SetsMember(state[i], user, m) && forall j, k | 0 <= j < i :: !SetsMember(state[j], user, k);
      if i < |init| {
        assert SetsMember(init[i], user, m);
      }
    }
  }

  lemma {:induction false} AdvertisedIs(state: seq<Pdu>, token: string)
    ensures forall k :: FirstValue(ViewOf(state).thirdPartyInvites, token) == Some(k) <==> Advertised(state, token, k)
  {
    hide Says, Observe, Advertised, IsThirdParty, KeyGiven, PublicKeyOf, FirstValue;
    if state == [] {
      NoneAdvertised(state, token);
      assert forall k :: !Advertised([], token, k) by { NothingAdvertised(token); }
    } else {
      var n := |state| - 1;
      var init, last := state[..n], state[n];
      AdvertisedIs(init, token);
      KeyGivenIs(last);
      ObserveInvites(ViewOf(init), last, token);
      NoneAdvertised(init, token);
      assert state == init + [last];
      forall k ensures FirstValue(ViewOf(state).thirdPartyInvites, token) == Some(k) <==> Advertised(state, token, k) {
        AdvertisedSnoc(init, last, token, k);
      }
    }
  }

  lemma NothingAdvertised(token: string)
    ensures forall k :: !Advertised([], token, k)
  {
  }

  lemma KeyGivenIs(e: Pdu)
    ensures forall k :: KeyGiven(e, k) <==> k == PublicKeyOf(e)
  {
    ContentStrIs(e, "public_key");
  }

  lemma ObserveInvites(view: AuthView, event: Pdu, token: string)
    ensures var before, after := FirstValue(view.thirdPartyInvites, token), FirstValue(Observe(view, event).thirdPartyInvites, token);
      after == if before == None && IsThirdParty(event, token) then Some(PublicKeyOf(event)) else before
  {
    hide PublicKeyOf, Content, MembershipOf;
    if event.stateKey.Some? {
      FirstValueSnoc(view.thirdPartyInvites, event.stateKey.value, PublicKeyOf(event), token);
    }
  }

  lemma AdvertisedSnoc(init: seq<Pdu>, last: Pdu, token: string, key: string)
    ensures Advertised(init + [last], token, key) <==>
      Advertised(init, token, key)
      || ((forall e | e in init :: !IsThirdParty(e, token)) && IsThirdParty(last, token) && KeyGiven(last, key))
  {
    hide Says, KeyGiven;
    var state := init + [last];
    assert forall j | 0 <= j < |init| :: state[j] == init[j];
    if i :| 0 <= i < |init| && IsThirdParty(init[i], token) && KeyGiven(init[i], key)
            && forall j | 0 <= j < i :: !IsThirdParty(init[j], token) {
      assert IsThirdParty(state[i], token);
    }
    if (forall e | e in init :: !IsThirdParty(e, token)) && IsThirdParty(last, token) && KeyGiven(last, key) {
      assert state[|init|] == last && forall j | 0 <= j < |init| :: state[j] in init;
    }
  }

  lemma {:induction false} NoneAdvertised(state: seq<Pdu>, token: string)
    ensures FirstValue(ViewOf(state).thirdPartyInvites, token) == None <==> forall e | e in state :: !IsThirdParty(e, token)
  {
    hide PublicKeyOf, Observe;
    if state != [] {
      var n := |state| - 1;
      NoneAdvertised(state[..n], token);
      ObserveInvites(ViewOf(state[..n]), state[n], token);
      assert forall x :: x in state <==> x in state[..n] || x == state[n];
    }
  }

  // ---------------------------------------------------------------------------
  // The room's settings
  // ---------------------------------------------------------------------------

  /** The room's power levels: the content of the power-levels event that counts. */
  ghost predicate Configured(state: seq<Pdu>, pl: Json) {
    exists e :: Governs(state, "m.room.power_levels", e) && Parse(e.contentJson) == Ok(pl)
  }

  ghost predicate Unconfigured(state: seq<Pdu>) {
    forall pl :: !Configured(state, pl)
  }

  /** The create event names the user as creator, as its room version has it. */
  ghost predicate CreatedBy(create: Pdu, user: string) {
    if FromVersion11(create) then create.sender == user else Says(create, "creator", Str(user))
  }

  ghost predicate FromVersion11(create: Pdu) {
    exists digits :: VersionDigits(create, digits) && 11 <= NumeralValue(digits) < 256
  }

  ghost predicate VersionDigits(create: Pdu, digits: string) {
    digits != "" && AllDigits(digits)
    && (Says(create, "room_version", Str(digits)) || Says(create, "room_version", Str("+" + digits)))
  }

  ghost predicate IsCreator(state: seq<Pdu>, user: string) {
    exists c :: Governs(state, "m.room.create", c) && CreatedBy(c, user)
  }

  /** The level the room asks under `key`. */
  ghost predicate RoomLevel(state: seq<Pdu>, key: string, fallback: int, n: int) {
    (exists pl :: Configured(state, pl) && LevelFrom(pl, key, fallback, n)) || (Unconfigured(state) && n == fallback)
  }

  /** The level it asks for events of a type. */
  ghost predicate RoomEventLevel(state: seq<Pdu>, kind: string, isState: bool, n: int) {
    || (exists pl :: Configured(state, pl) && EventLevelFrom(pl, kind, isState, n))
    || (Unconfigured(state) && n == if isState then 50 else 0)
  }

  /** The user's level; before any power levels the creator has 100. */
  ghost predicate RoomPower(state: seq<Pdu>, user: string, n: int) {
    || (exists pl :: Configured(state, pl) && PowerFrom(pl, user, n))
    || (Unconfigured(state) && n == if IsCreator(state, user) then 100 else 0)
  }

  ghost predicate RoomRule(state: seq<Pdu>, rule: string) {
    || (exists e :: Governs(state, "m.room.join_rules", e) && Says(e, "join_rule", Str(rule)))
    || (rule == "invite" && forall e, r | Governs(state, "m.room.join_rules", e) :: !Says(e, "join_rule", Str(r)))
  }

  lemma ConfiguredIs(state: seq<Pdu>)
    ensures forall pl :: Configured(state, pl) <==> ViewOf(state).powerLevels == Some(pl)
    ensures ViewOf(state).powerLevels.Some? ==> WellFormed(ViewOf(state).powerLevels.value)
  {
    hide Governs;
    ViewHoldsLast(state);
    LastOfGoverns(state, "m.room.power_levels");
    var e := LastOf(state, "m.room.power_levels");
    if e.Some? {
      ContentIs(e.value);
    }
    assert forall pl :: Configured(state, pl) <==> e.Some? && Parse(e.value.contentJson) == Ok(pl);
  }

  lemma RoomLevelIs(state: seq<Pdu>, key: string, fallback: int)
    ensures forall n :: RoomLevel(state, key, fallback, n) <==> ViewOf(state).Level(key, fallback) == n
  {
    hide LevelFrom, Configured, ViewOf;
    ConfiguredIs(state);
    var pl := ViewOf(state).powerLevels;
    if pl.Some? {
      LevelIs(pl.value, key, fallback);
      assert Configured(state, pl.value);
    }
  }

  lemma RoomEventLevelIs(state: seq<Pdu>, kind: string, isState: bool)
    ensures forall n :: RoomEventLevel(state, kind, isState, n) <==> ViewOf(state).EventLevel(kind, isState) == n
  {
    hide LevelFrom, Configured, ViewOf, HoldsNumberWithin;
    ConfiguredIs(state);
    var pl := ViewOf(state).powerLevels;
    if pl.Some? {
      GetWithinIs(pl.value, "events", kind);
      LevelIs(pl.value, "state_default", 50);
      LevelIs(pl.value, "events_default", 0);
      assert Configured(state, pl.value);
      var own := match pl.value.Get("events") case Some(e) => e.GetI64(kind) case None => None;
      assert own.Some? ==> HoldsNumberWithin(pl.value, "events", kind, own.value);
    }
  }

  lemma Version11Is(create: Pdu)
    ensures FromVersion11(create) <==> RoomVersionOf(create) >= 11
  {
    ContentStrIs(create, "room_version");
    var v := ContentStr(create, "room_version");
    if v.Some? && RoomVersionOf(create) >= 11 {
      var s := v.value;
      var digits := if s != "" && s[0] == '+' then s[1..] else s;
      assert s == digits || s == "+" + digits;
      assert VersionDigits(create, digits);
    }
    if digits :| VersionDigits(create, digits) && 11 <= NumeralValue(digits) < 256 {
      assert digits[0] in digits && IsDigit(digits[0]) && digits[0] != '+';
      assert ("+" + digits)[1..] == digits;
    }
  }

  lemma CreatorIs(state: seq<Pdu>, user: string)
    ensures IsCreator(state, user) <==> ViewOf(state).Creator() == Some(user)
  {
    hide Governs, FromVersion11, Says;
    ViewHoldsLast(state);
    LastOfGoverns(state, "m.room.create");
    var c := LastOf(state, "m.room.create");
    if c.Some? {
      Version11Is(c.value);
      ContentStrIs(c.value, "creator");
    }
  }

  lemma RoomPowerIs(state: seq<Pdu>, user: string)
    ensures forall n :: RoomPower(state, user, n) <==> ViewOf(state).PowerLevel(user) == n
  {
    hide PowerFrom, Configured, ViewOf, IsCreator, UserLevel;
    ConfiguredIs(state);
    CreatorIs(state, user);
    var pl := ViewOf(state).powerLevels;
    if pl.Some? {
      UserLevelIs(pl.value, user);
      assert Configured(state, pl.value);
    }
  }

  lemma RoomRuleIs(state: seq<Pdu>)
    ensures forall r :: RoomRule(state, r) <==> ViewOf(state).JoinRule() == r
  {
    hide Governs;
    ViewHoldsLast(state);
    LastOfGoverns(state, "m.room.join_rules");
    var e := LastOf(state, "m.room.join_rules");
    if e.Some? {
      ContentIs(e.value);
      if Content(e.value).Some? {
        GetStrIs(Content(e.value).value, "join_rule");
        assert forall r :: Says(e.value, "join_rule", Str(r)) <==> Content(e.value).value.GetStr("join_rule") == Some(r);
      }
    }
  }

  // ---------------------------------------------------------------------------
  // Who may do what
  // ---------------------------------------------------------------------------

  /** The user's level is at least what the room asks under `key`. */
  ghost predicate Reaches(state: seq<Pdu>, user: string, key: string, fallback: int) {
    exists p, n :: RoomPower(state, user, p) && RoomLevel(state, key, fallback, n) && p >= n
  }

  ghost predicate ReachesEvent(state: seq<Pdu>, user: string, kind: string, isState: bool) {
    exists p, n :: RoomPower(state, user, p) && RoomEventLevel(state, kind, isState, n) && p >= n
  }

  /** The one user's level is strictly above the other's. */
  ghost predicate Above(state: seq<Pdu>, user: string, other: string) {
    exists p, q :: RoomPower(state, user, p) && RoomPower(state, other, q) && p > q
  }

  /** The event names a joined user with the invite level who lets its sender in. */
  ghost predicate VouchedFor(state: seq<Pdu>, e: Pdu) {
    exists user :: Says(e, "join_authorised_via_users_server", Str(user)) && Stands(state, user, "join") && Reaches(state, user, "invite", 0)
  }

  /** `text` prints the members of `signed` but its signatures. */
  ghost predicate PrintsUnsigned(signed: Json, text: string) {
    exists rest ::
      && KeysAscend(rest) && text == Print(Object(rest))
      && forall m :: m in rest <==> signed.Object? && m in signed.members && m.key != "signatures"
  }

  /** `signature` stands somewhere under the signers of `signed`. */
  ghost predicate IsSignature(signed: Json, signature: string) {
    exists bySigner, signer, keys, key ::
      Holds(signed, "signatures", bySigner) && Holds(bySigner, signer, keys) && Holds(keys, key, Str(signature))
  }

  /** The event's signed block for `token` carries a signature by the key. */
  ghost predicate SignedFor(e: Pdu, token: string, key: string, sig: SigCheck) {
    exists third, signed, signature, text ::
      && Says(e, "third_party_invite", third) && Holds(third, "signed", signed)
      && Holds(signed, "token", Str(token)) && IsSignature(signed, signature) && PrintsUnsigned(signed, text)
      && sig(text, signature, key)
  }

  /** The event redeems a third-party invite of the room. */
  ghost predicate Redeems(state: seq<Pdu>, e: Pdu, sig: SigCheck) {
    exists token, key :: Advertised(state, token, key) && SignedFor(e, token, key, sig)
  }

  /** The redacted event and the sender have one server: what follows the first colon of each. */
  ghost predicate RedactsOwnServer(e: Pdu) {
    exists id, local, name, server ::
      && Says(e, "redacts", Str(id)) && id == local + ":" + server && ':' !in local
      && e.sender == name + ":" + server && ':' !in name
  }

  /** A user may join themselves: as the creator, on an invite, or under a rule that opens the room. */
  ghost predicate MayJoin(state: seq<Pdu>, e: Pdu) {
    && !Stands(state, e.sender, "ban")
    && (|| (IsCreator(state, e.sender) && Unlisted(state, e.sender))
        || Stands(state, e.sender, "invite")
        || RoomRule(state, "public")
        || ((RoomRule(state, "restricted") || RoomRule(state, "knock_restricted")) && VouchedFor(state, e)))
  }

  ghost predicate MayKnock(state: seq<Pdu>, user: string) {
    && (RoomRule(state, "knock") || RoomRule(state, "knock_restricted"))
    && !Stands(state, user, "join") && !Stands(state, user, "ban")
  }

  /** Where the event may lead `target`. */
  ghost predicate MayLead(state: seq<Pdu>, e: Pdu, target: string, now: string, sig: SigCheck) {
    var own, joined := e.sender == target, Stands(state, e.sender, "join");
    || (now == "join" && own && MayJoin(state, e))
    || (now == "invite" && joined && !Stands(state, target, "join") && !Stands(state, target, "ban")
        && (Redeems(state, e, sig) || Reaches(state, e.sender, "invite", 0)))
    || (now == "leave" && (own || (joined && Reaches(state, e.sender, "kick", 50) && Above(state, e.sender, target))))
    || (now == "ban" && joined && Reaches(state, e.sender, "ban", 50) && Above(state, e.sender, target))
    || (now == "knock" && own && MayKnock(state, target))
  }

  /** What an event of any other type takes. */
  ghost predicate MaySend(state: seq<Pdu>, e: Pdu) {
    && Stands(state, e.sender, "join")
    && if e.kind == "m.room.redaction" then RedactsOwnServer(e) || Reaches(state, e.sender, "redact", 50)
       else ReachesEvent(state, e.sender, e.kind, e.stateKey.Some?)
  }

  /** The event is in the table of what the rules allow. */
  ghost predicate Permitted(state: seq<Pdu>, e: Pdu, sig: SigCheck) {
    if e.kind == "m.room.create" then !HasKind(state, "m.room.create")
    else
      && HasKind(state, "m.room.create")
      && if e.kind == "m.room.member" then
           e.stateKey.Some? && exists now :: Says(e, "membership", Str(now)) && MayLead(state, e, e.stateKey.value, now, sig)
         else MaySend(state, e)
  }

  lemma ReachesIs(state: seq<Pdu>, user: string, key: string, fallback: int)
    ensures Reaches(state, user, key, fallback) <==> ViewOf(state).PowerLevel(user) >= ViewOf(state).Level(key, fallback)
  {
    hide RoomPower, RoomLevel, ViewOf;
    RoomPowerIs(state, user);
    RoomLevelIs(state, key, fallback);
    assert RoomPower(state, user, ViewOf(state).PowerLevel(user)) && RoomLevel(state, key, fallback, ViewOf(state).Level(key, fallback));
  }

  lemma ReachesEventIs(state: seq<Pdu>, user: string, kind: string, isState: bool)
    ensures ReachesEvent(state, user, kind, isState) <==> ViewOf(state).PowerLevel(user) >= ViewOf(state).EventLevel(kind, isState)
  {
    hide RoomPower, RoomEventLevel, ViewOf;
    RoomPowerIs(state, user);
    RoomEventLevelIs(state, kind, isState);
    assert RoomPower(state, user, ViewOf(state).PowerLevel(user)) && RoomEventLevel(state, kind, isState, ViewOf(state).EventLevel(kind, isState));
  }

  lemma AboveIs(state: seq<Pdu>, user: string, other: string)
    ensures Above(state, user, other) <==> ViewOf(state).PowerLevel(user) > ViewOf(state).PowerLevel(other)
  {
    hide RoomPower, ViewOf;
    RoomPowerIs(state, user);
    RoomPowerIs(state, other);
    assert RoomPower(state, user, ViewOf(state).PowerLevel(user)) && RoomPower(state, other, ViewOf(state).PowerLevel(other));
  }

  lemma VouchedForIs(state: seq<Pdu>, e: Pdu)
    ensures VouchedFor(state, e) <==> RestrictedJoinAuthorised(e, ViewOf(state))
  {
    hide Reaches, Stands, ViewOf, Says;
    ContentStrIs(e, "join_authorised_via_users_server");
    var user := ContentStr(e, "join_authorised_via_users_server");
    if user.Some? {
      MembershipStands(state, user.value);
      ReachesIs(state, user.value, "invite", 0);
    }
  }

  lemma RedactsOwnServerIs(e: Pdu)
    ensures RedactsOwnServer(e) <==> RedactionTargetsOwnDomain(e)
  {
    hide Says, SplitOnce;
    ContentStrIs(e, "redacts");
    var id := ContentStr(e, "redacts");
    if id.Some? {
      if RedactionTargetsOwnDomain(e) {
        var (local, server) := SplitOnce(id.value, ':').value;
        var (name, _) := SplitOnce(e.sender, ':').value;
        assert id.value == local + ":" + server && e.sender == name + ":" + server;
      }
      if local, name, server :| id.value == local + ":" + server && ':' !in local && e.sender == name + ":" + server && ':' !in name {
        SplitOnceAt(local, ':', server);
        SplitOnceAt(name, ':', server);
      }
    }
  }

  lemma {:induction false} RemoveIs(members: seq<Member>, key: string)
    requires KeysAscend(members)
    ensures KeysAscend(Remove(members, key))
    ensures forall m :: m in Remove(members, key) <==> m in members && m.key != key
  {
    if members != [] {
      var rest := members[1..];
      RemoveIs(rest, key);
      assert forall m :: m in members <==> m == members[0] || m in rest;
      assert forall m | m in rest :: StrLess(members[0].key, m.key);
      StrLessTotal(key, key);
    }
  }

  lemma {:induction false} SameMembers(a: seq<Member>, b: seq<Member>)
    requires KeysAscend(a) && KeysAscend(b) && forall m :: m in a <==> m in b
    ensures a == b
  {
    assert (a != [] ==> a[0] in b) && (b != [] ==> b[0] in a);
    if a != [] && b != [] {
      if a[0] != b[0] {
        StrLessTotal(a[0].key, b[0].key);
      }
      StrLessTotal(a[0].key, a[0].key);
      assert forall m :: (m in a <==> m == a[0] || m in a[1..]) && (m in b <==> m == b[0] || m in b[1..]);
      assert forall m | m in a[1..] || m in b[1..] :: StrLess(a[0].key, m.key);
      SameMembers(a[1..], b[1..]);
    }
  }

  lemma PrintsUnsignedIs(signed: Json)
    requires signed.Object? && WellFormed(signed)
    ensures forall text :: PrintsUnsigned(signed, text) <==> text == Print(Object(Remove(signed.members, "signatures")))
  {
    hide Print;
    var rest := Remove(signed.members, "signatures");
    RemoveIs(signed.members, "signatures");
    forall other | KeysAscend(other) && forall m :: m in other <==> m in signed.members && m.key != "signatures" ensures other == rest {
      SameMembers(other, rest);
    }
  }

  lemma SignedBlockIs(e: Pdu)
    ensures forall signed :: SignedBlock(e) == Some(signed) <==>
      exists third :: Says(e, "third_party_invite", third) && Holds(third, "signed", signed)
    ensures SignedBlock(e).Some? ==> WellFormed(SignedBlock(e).value)
  {
    ContentIs(e);
    if Content(e).Some? {
      GetIs(Content(e).value, "third_party_invite");
      var third := Content(e).value.Get("third_party_invite");
      if third.Some? {
        GetIs(third.value, "signed");
        assert Says(e, "third_party_invite", third.value);
      }
    }
  }

  /** Some string under some signer satisfies `p`. */
  lemma SignaturesAre(signed: Json, p: string -> bool)
    requires WellFormed(signed)
    ensures (exists signature :: IsSignature(signed, signature) && p(signature)) <==>
      match signed.Get("signatures")
      case Some(Object(bySigner)) =>
        exists s, k | 0 <= s < |bySigner| && bySigner[s].value.Object? && 0 <= k < |bySigner[s].value.members| ::
          bySigner[s].value.members[k].value.Str? && p(bySigner[s].value.members[k].value.s)
      case _ => false
  {
    GetIs(signed, "signatures");
    if signed.Get("signatures").Some? && signed.Get("signatures").value.Object? {
      var bySigner := signed.Get("signatures").value.members;
      if s, k :| 0 <= s < |bySigner| && bySigner[s].value.Object? && 0 <= k < |bySigner[s].value.members|
                 && bySigner[s].value.members[k].value.Str? && p(bySigner[s].value.members[k].value.s) {
        var keys := bySigner[s].value;
        assert bySigner[s] == Member(bySigner[s].key, keys) && keys.members[k] == Member(keys.members[k].key, Str(keys.members[k].value.s));
        assert Holds(signed.Get("signatures").value, bySigner[s].key, keys);
        assert Holds(keys, keys.members[k].key, Str(keys.members[k].value.s));
        assert IsSignature(signed, keys.members[k].value.s);
      }
      if signature :| IsSignature(signed, signature) && p(signature) {
        var all, signer, keys, key :| Holds(signed, "signatures", all) && Holds(all, signer, keys) && Holds(keys, key, Str(signature));
        assert all.members == bySigner;
        var s :| 0 <= s < |bySigner| && bySigner[s] == Member(signer, keys);
        var k :| 0 <= k < |keys.members| && keys.members[k] == Member(key, Str(signature));
        assert bySigner[s].value.members[k].value.s == signature;
      }
    }
  }

  lemma SignedForIs(e: Pdu, token: string, key: string, sig: SigCheck)
    ensures SignedFor(e, token, key, sig) <==>
      match SignedBlock(e)
      case None => false
      case Some(signed) =>
        && signed.GetStr("token") == Some(token)
        && exists signature :: IsSignature(signed, signature) && sig(Print(Object(Remove(signed.members, "signatures"))), signature, key)
  {
    hide IsSignature, PrintsUnsigned, Says, SignedBlock, Print, Json.GetStr;
    SignedBlockIs(e);
    if SignedFor(e, token, key, sig) {
      var t, b, signature, text :|
        && Says(e, "third_party_invite", t) && Holds(t, "signed", b)
        && Holds(b, "token", Str(token)) && IsSignature(b, signature) && PrintsUnsigned(b, text)
        && sig(text, signature, key);
      assert SignedBlock(e) == Some(b);
    }
    if SignedBlock(e).Some? {
      var signed := SignedBlock(e).value;
      GetStrIs(signed, "token");
      var third :| Says(e, "third_party_invite", third) && Holds(third, "signed", signed);
      if signed.Object? {
        PrintsUnsignedIs(signed);
        var message := Print(Object(Remove(signed.members, "signatures")));
        assert PrintsUnsigned(signed, message);
        if signature :| Holds(signed, "token", Str(token)) && IsSignature(signed, signature) && sig(message, signature, key) {
          assert SignedFor(e, token, key, sig);
        }
      }
    }
  }

  lemma RedeemsIs(state: seq<Pdu>, e: Pdu, sig: SigCheck)
    ensures Redeems(state, e, sig) <==> ThirdPartyInviteIsValid(e, ViewOf(state), sig)
  {
    hide Says, Advertised, IsSignature, Print, ViewOf, SignedBlock, SignedFor, Json.GetStr;
    SignedBlockIs(e);
    var block := SignedBlock(e);
    forall token, key ensures SignedFor(e, token, key, sig) ==> block.Some? && block.value.GetStr("token") == Some(token) {
      SignedForIs(e, token, key, sig);
    }
    if block.Some? && block.value.GetStr("token").Some? {
      var signed, token := block.value, block.value.GetStr("token").value;
      AdvertisedIs(state, token);
      var key := FirstValue(ViewOf(state).thirdPartyInvites, token);
      if key.Some? {
        SignedForIs(e, token, key.value, sig);
        GetStrIs(signed, "token");
        var message := Print(Object(Remove(signed.members, "signatures")));
        SignaturesAre(signed, signature => sig(message, signature, key.value));
        assert Redeems(state, e, sig) <==> SignedFor(e, token, key.value, sig);
      }
    }
  }

  // ---------------------------------------------------------------------------
  // The check accepts what the table allows
  // ---------------------------------------------------------------------------

  lemma MemberVerdictIs(state: seq<Pdu>, e: Pdu, target: string, sig: SigCheck)
    requires e.kind == "m.room.member" && e.stateKey == Some(target)
    ensures CheckMemberAuth(e, ViewOf(state), sig).Ok? <==>
      exists now :: Says(e, "membership", Str(now)) && MayLead(state, e, target, now, sig)
  {
    hide Says, Stands, ViewOf, Reaches, Above, Redeems, RoomRule, IsCreator, VouchedFor, Unlisted, MembershipOf,
      ThirdPartyInviteIsValid, RestrictedJoinAuthorised, AuthView.Membership, AuthView.Level, AuthView.PowerLevel, AuthView.JoinRule, AuthView.Creator;
    MembershipIs(e);
    MembershipStands(state, target);
    MembershipStands(state, e.sender);
    RedeemsIs(state, e, sig);
    VouchedForIs(state, e);
    CreatorIs(state, e.sender);
    RoomRuleIs(state);
    ReachesIs(state, e.sender, "invite", 0);
    ReachesIs(state, e.sender, "kick", 50);
    ReachesIs(state, e.sender, "ban", 50);
    AboveIs(state, e.sender, target);
    if MembershipOf(e).Some? {
      assert Says(e, "membership", Str(MembershipOf(e).value));
    }
  }

  lemma MemberNeedsKey(state: seq<Pdu>, e: Pdu, sig: SigCheck)
    requires e.stateKey == None
    ensures !CheckMemberAuth(e, ViewOf(state), sig).Ok?
  {
  }

  /** An event is authorized exactly when the table, read off the listed contents, allows it. */
  lemma AuthorizedIff(state: seq<Pdu>, e: Pdu, sig: SigCheck)
    ensures CheckAuth(e, state, sig).Ok? <==> Permitted(state, e, sig)
  {
    hide Says, Stands, ViewOf, Reaches, ReachesEvent, MayLead, RedactsOwnServer, CheckMemberAuth, Governs,
      RedactionTargetsOwnDomain, AuthView.Membership, AuthView.Level, AuthView.PowerLevel, AuthView.EventLevel;
    ViewHoldsLast(state);
    LastOfGoverns(state, "m.room.create");
    MembershipStands(state, e.sender);
    RedactsOwnServerIs(e);
    ReachesIs(state, e.sender, "redact", 50);
    ReachesEventIs(state, e.sender, e.kind, e.stateKey.Some?);
    if e.kind == "m.room.member" && e.stateKey.Some? {
      MemberVerdictIs(state, e, e.stateKey.value, sig);
    } else if e.stateKey == None {
      MemberNeedsKey(state, e, sig);
    }
  }

  /** The event asks its sender to be in the room. */
  ghost predicate AsksToBeIn(e: Pdu) {
    e.kind == "m.room.member" ==>
      && e.stateKey.Some?
      && (Says(e, "membership", Str("invite")) || Says(e, "membership", Str("ban"))
          || (Says(e, "membership", Str("leave")) && e.stateKey != Some(e.sender)))
  }

  /** It invites someone who is in or banned. */
  ghost predicate InvitesInVain(state: seq<Pdu>, e: Pdu) {
    && e.kind == "m.room.member" && e.stateKey.Some? && Says(e, "membership", Str("invite"))
    && (Stands(state, e.stateKey.value, "join") || Stands(state, e.stateKey.value, "ban"))
  }

  /** Why a refused event is refused; what remains is a membership the rules forbid. */
  lemma RefusalIs(state: seq<Pdu>, e: Pdu, sig: SigCheck)
    ensures var verdict, open := CheckAuth(e, state, sig), e.kind != "m.room.create" && HasKind(state, "m.room.create");
      && (verdict == Err(DuplicateCreate) <==> e.kind == "m.room.create" && HasKind(state, "m.room.create"))
      && (verdict == Err(NoCreateEvent) <==> e.kind != "m.room.create" && !HasKind(state, "m.room.create"))
      && (verdict == Err(SenderNotJoined) <==> open && AsksToBeIn(e) && !Stands(state, e.sender, "join"))
      && (verdict == Err(InsufficientPower) <==>
            open && AsksToBeIn(e) && Stands(state, e.sender, "join") && !InvitesInVain(state, e) && !Permitted(state, e, sig))
      && verdict != Err(MissingAuthEvent)
  {
    hide Says, Stands, ViewOf, Governs, Permitted, MembershipOf, RedactionTargetsOwnDomain, ThirdPartyInviteIsValid,
      RestrictedJoinAuthorised, AuthView.Membership, AuthView.Level, AuthView.PowerLevel, AuthView.EventLevel;
    AuthorizedIff(state, e, sig);
    ViewHoldsLast(state);
    LastOfGoverns(state, "m.room.create");
    MembershipIs(e);
    MembershipStands(state, e.sender);
    if e.stateKey.Some? {
      MembershipStands(state, e.stateKey.value);
    }
  }
}
