/** Event authorization: the rules an event must pass against the room's state. */
module Auth {
  import opened Orders
  import opened Text
  import opened Json
  import opened Events

  datatype AuthError =
    | DuplicateCreate
    | NoCreateEvent
    | SenderNotJoined
    | InsufficientPower
    | MembershipForbidden
    | MissingAuthEvent

  type Verdict = Result<(), AuthError>

  /** Ed25519 verification of (message, signature, public key), all as wire strings. */
  type SigCheck = (string, string, string) -> bool

  const DEFAULT_STATE_POWER: int := 50
  const DEFAULT_EVENTS_POWER: int := 0
  const DEFAULT_INVITE_POWER: int := 0
  const DEFAULT_KICK_POWER: int := 50
  const DEFAULT_BAN_POWER: int := 50
  const DEFAULT_REDACT_POWER: int := 50
  const CREATOR_POWER: int := 100

  // ---------------------------------------------------------------------------
  // Reading single events
  // ---------------------------------------------------------------------------

  /** `str::parse::<u8>`: digits, with an optional plus sign. */
  function ParseU8(s: string): Option<nat> {
    var digits := if s != "" && s[0] == '+' then s[1..] else s;
    if digits != "" && AllDigits(digits) && NumeralValue(digits) < 256 then Some(NumeralValue(digits)) else None
  }

  function RoomVersionOf(create: Pdu): nat {
    match ContentStr(create, "room_version")
    case None => 1
    case Some(v) => match ParseU8(v) case Some(n) => n case None => 1
  }

  /** From room version 11 the creator is the create event's sender, before that its content says. */
  function CreatorOf(create: Pdu): Option<string> {
    if RoomVersionOf(create) >= 11 then Some(create.sender) else ContentStr(create, "creator")
  }

  predicate RedactionTargetsOwnDomain(event: Pdu) {
    match ContentStr(event, "redacts")
    case None => false
    case Some(redacts) =>
      match (SplitOnce(redacts, ':'), SplitOnce(event.sender, ':'))
      case (Some((_, target)), Some((_, own))) => own == target
      case _ => false
  }

  // ---------------------------------------------------------------------------
  // The view of a room's state
  // ---------------------------------------------------------------------------

  function FirstValue(pairs: seq<(string, string)>, key: string): Option<string> {
    if pairs == [] then None
    else if pairs[0].0 == key then Some(pairs[0].1)
    else FirstValue(pairs[1..], key)
  }

  datatype AuthView = AuthView(
    create: Option<Pdu>,
    powerLevels: Option<Json>,
    joinRules: Option<Json>,
    members: seq<(string, string)>,
    thirdPartyInvites: seq<(string, string)>)
  {
    function Membership(user: string): Option<string> {
      FirstValue(members, user)
    }

    function JoinRule(): string {
      match joinRules
      case Some(j) => (match j.GetStr("join_rule") case Some(rule) => rule case None => "invite")
      case None => "invite"
    }

    function Level(key: string, fallback: int): int {
      match powerLevels
      case Some(pl) => (match pl.GetI64(key) case Some(n) => n case None => fallback)
      case None => fallback
    }

    function EventLevel(kind: string, isState: bool): int {
      var override: Option<int> :=
        match powerLevels
        case Some(pl) => (match pl.Get("events") case Some(e) => e.GetI64(kind) case None => None)
        case None => None;
      match override
      case Some(level) => level
      case None =>
        if isState then Level("state_default", DEFAULT_STATE_POWER) else Level("events_default", DEFAULT_EVENTS_POWER)
    }

    function Creator(): Option<string> {
      match create case Some(c) => CreatorOf(c) case None => None
    }

    function PowerLevel(user: string): int {
      match powerLevels
      case Some(pl) => UserLevel(pl, user)
      case None => if Creator() == Some(user) then CREATOR_POWER else 0
    }
  }

  /** A user's level in the content of a power-levels event. */
  function UserLevel(pl: Json, user: string): int {
    var own: Option<int> := match pl.Get("users") case Some(u) => u.GetI64(user) case None => None;
    match own
    case Some(level) => level
    case None => match pl.GetI64("users_default") case Some(level) => level case None => 0
  }

  const EMPTY_VIEW := AuthView(None, None, None, [], [])

  function PublicKeyOf(event: Pdu): string {
    match ContentStr(event, "public_key") case Some(k) => k case None => ""
  }

  /** What one state event adds to the view. */
  function Observe(view: AuthView, event: Pdu): AuthView {
    if event.kind == ROOM_CREATE then view.(create := Some(event))
    else if event.kind == ROOM_POWER_LEVELS then view.(powerLevels := Content(event))
    else if event.kind == ROOM_JOIN_RULES then view.(joinRules := Content(event))
    else if event.kind == ROOM_THIRD_PARTY_INVITE then
      match event.stateKey
      case Some(token) => view.(thirdPartyInvites := view.thirdPartyInvites + [(token, PublicKeyOf(event))])
      case None => view
    else if event.kind == ROOM_MEMBER then
      match (event.stateKey, MembershipOf(event))
      case (Some(user), Some(membership)) => view.(members := view.members + [(user, membership)])
      case _ => view
    else view
  }

  function ViewOf(state: seq<Pdu>): AuthView {
    if state == [] then EMPTY_VIEW else Observe(ViewOf(state[..|state| - 1]), state[|state| - 1])
  }

  /** AuthView::new: one pass over the state events. */
  method NewView(state: seq<Pdu>) returns (view: AuthView)
    ensures view == ViewOf(state)
  {
    var create: Option<Pdu> := None;
    var powerLevels: Option<Json> := None;
    var joinRules: Option<Json> := None;
    var members: seq<(string, string)> := [];
    var thirdPartyInvites: seq<(string, string)> := [];
    for i := 0 to |state|
      invariant AuthView(create, powerLevels, joinRules, members, thirdPartyInvites) == ViewOf(state[..i])
    {
      var event := state[i];
      assert state[..i + 1][..i] == state[..i] && state[..i + 1][i] == event;
      if event.kind == ROOM_CREATE {
        create := Some(event);
      } else if event.kind == ROOM_POWER_LEVELS {
        powerLevels := Content(event);
      } else if event.kind == ROOM_JOIN_RULES {
        joinRules := Content(event);
      } else if event.kind == ROOM_THIRD_PARTY_INVITE {
        if event.stateKey.Some? {
          thirdPartyInvites := thirdPartyInvites + [(event.stateKey.value, PublicKeyOf(event))];
        }
      } else if event.kind == ROOM_MEMBER {
        if event.stateKey.Some? {
          var membership := MembershipOf(event);
          if membership.Some? {
            members := members + [(event.stateKey.value, membership.value)];
          }
        }
      }
    }
    assert state[..|state|] == state;
    view := AuthView(create, powerLevels, joinRules, members, thirdPartyInvites);
  }

  // ---------------------------------------------------------------------------
  // The rules
  // ---------------------------------------------------------------------------

  function Require(allowed: bool, error: AuthError): Verdict {
    if allowed then Ok(()) else Err(error)
  }

  predicate RestrictedJoinAuthorised(event: Pdu, view: AuthView) {
    match ContentStr(event, "join_authorised_via_users_server")
    case None => false
    case Some(authoriser) =>
      && view.Membership(authoriser) == Some("join")
      && view.PowerLevel(authoriser) >= view.Level("invite", DEFAULT_INVITE_POWER)
  }

  function SignedBlock(event: Pdu): Option<Json> {
    match Content(event)
    case None => None
    case Some(c) => match c.Get("third_party_invite") case Some(t) => t.Get("signed") case None => None
  }

  predicate ThirdPartyInviteIsValid(event: Pdu, view: AuthView, sig: SigCheck) {
    match SignedBlock(event)
    case None => false
    case Some(signed) =>
      match signed.GetStr("token")
      case None => false
      case Some(token) =>
        match (FirstValue(view.thirdPartyInvites, token), signed.Get("signatures"))
        case (Some(publicKey), Some(Object(bySigner))) =>
          var message := Print(Object(Remove(signed.members, "signatures")));
          exists s, k | 0 <= s < |bySigner| && bySigner[s].value.Object? && 0 <= k < |bySigner[s].value.members| ::
            && bySigner[s].value.members[k].value.Str?
            && sig(message, bySigner[s].value.members[k].value.s, publicKey)
        case _ => false
  }

  /** The membership state machine. */
  function CheckMemberAuth(event: Pdu, view: AuthView, sig: SigCheck): Verdict {
    match event.stateKey
    case None => Err(MembershipForbidden)
    case Some(target) =>
      var sender := event.sender;
      var change := MembershipOf(event);
      var current := view.Membership(target);
      var outranks := view.PowerLevel(sender) > view.PowerLevel(target);
      if change == Some("join") then
        if target != sender || current == Some("ban") then Err(MembershipForbidden)
        else if view.Creator() == Some(sender) && current == None then Ok(())
        else if current == Some("invite") || view.JoinRule() == "public" then Ok(())
        else if view.JoinRule() == "restricted" || view.JoinRule() == "knock_restricted" then
          Require(RestrictedJoinAuthorised(event, view), MembershipForbidden)
        else Err(MembershipForbidden)
      else if change == Some("invite") then
        if view.Membership(sender) != Some("join") then Err(SenderNotJoined)
        else if current == Some("join") || current == Some("ban") then Err(MembershipForbidden)
        else if ThirdPartyInviteIsValid(event, view, sig) then Ok(())
        else Require(view.PowerLevel(sender) >= view.Level("invite", DEFAULT_INVITE_POWER), InsufficientPower)
      else if change == Some("leave") then
        if target == sender then Ok(())
        else if view.Membership(sender) != Some("join") then Err(SenderNotJoined)
        else Require(view.PowerLevel(sender) >= view.Level("kick", DEFAULT_KICK_POWER) && outranks, InsufficientPower)
      else if change == Some("ban") then
        if view.Membership(sender) != Some("join") then Err(SenderNotJoined)
        else Require(view.PowerLevel(sender) >= view.Level("ban", DEFAULT_BAN_POWER) && outranks, InsufficientPower)
      else if change == Some("knock") then
        Require(
          && target == sender
          && (view.JoinRule() == "knock" || view.JoinRule() == "knock_restricted")
          && current != Some("join") && current != Some("ban"),
          MembershipForbidden)
      else Err(MembershipForbidden)
  }

  /** Whether `event` is authorized against the state events `state`. */
  function CheckAuth(event: Pdu, state: seq<Pdu>, sig: SigCheck): Verdict {
    CheckAuthIn(event, ViewOf(state), sig)
  }

  function CheckAuthIn(event: Pdu, view: AuthView, sig: SigCheck): Verdict {
    if event.kind == ROOM_CREATE then Require(view.create == None, DuplicateCreate)
    else if view.create == None then Err(NoCreateEvent)
    else if event.kind == ROOM_MEMBER then CheckMemberAuth(event, view, sig)
    else if view.Membership(event.sender) != Some("join") then Err(SenderNotJoined)
    else if event.kind == ROOM_REDACTION then
      Require(
        RedactionTargetsOwnDomain(event) || view.PowerLevel(event.sender) >= view.Level("redact", DEFAULT_REDACT_POWER),
        InsufficientPower)
    else
      Require(view.PowerLevel(event.sender) >= view.EventLevel(event.kind, event.stateKey.Some?), InsufficientPower)
  }
}
