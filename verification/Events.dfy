/** Room events: the PDU envelope, state slots, and the event types the server knows. */
module Events {
  import opened Orders
  import opened Json

  type EventId = string

  const ROOM_CREATE := "m.room.create"
  const ROOM_MEMBER := "m.room.member"
  const ROOM_POWER_LEVELS := "m.room.power_levels"
  const ROOM_JOIN_RULES := "m.room.join_rules"
  const ROOM_REDACTION := "m.room.redaction"
  const ROOM_THIRD_PARTY_INVITE := "m.room.third_party_invite"

  datatype Pdu = Pdu(
    eventId: EventId,
    roomId: string,
    sender: string,
    kind: string,
    stateKey: Option<string>,
    originServerTs: nat,
    depth: nat,
    prevEvents: seq<EventId>,
    authEvents: seq<EventId>,
    contentJson: string)

  /** The `(type, state key)` pair a state event fills. */
  datatype Slot = Slot(kind: string, stateKey: string)

  function SlotOf(event: Pdu): Option<Slot> {
    match event.stateKey
    case Some(key) => Some(Slot(event.kind, key))
    case None => None
  }

  /** The order of a BTreeMap keyed by slots. */
  predicate SlotLess(a: Slot, b: Slot) {
    StrLess(a.kind, b.kind) || (a.kind == b.kind && StrLess(a.stateKey, b.stateKey))
  }

  lemma SlotLessIsStrictTotal()
    ensures StrictTotal(SlotLess)
  {
    StrLessIsStrictTotal();
    forall a, b, c: Slot | SlotLess(a, b) && SlotLess(b, c) ensures SlotLess(a, c) {
    }
    forall a, b: Slot ensures (SlotLess(a, b) || SlotLess(b, a) || a == b) && !(SlotLess(a, b) && SlotLess(b, a)) {
      assert StrLess(a.kind, b.kind) || StrLess(b.kind, a.kind) || a.kind == b.kind;
      assert StrLess(a.stateKey, b.stateKey) || StrLess(b.stateKey, a.stateKey) || a.stateKey == b.stateKey;
    }
  }

  /** The event's content, if it is a JSON document. */
  function Content(event: Pdu): Option<Json> {
    match Parse(event.contentJson)
    case Ok(j) => Some(j)
    case Err(_) => None
  }

  function ContentStr(event: Pdu, key: string): Option<string> {
    match Content(event)
    case Some(j) => j.GetStr(key)
    case None => None
  }

  function MembershipOf(event: Pdu): Option<string> {
    ContentStr(event, "membership")
  }
}
