/** What an event's content says, member by member, and that every reader of it reads just that. */
module Contents {
  import opened Orders
  import opened Text
  import opened Json
  import opened JsonRoundTrip
  import opened Events
  import opened Auth

  /** The object `j` has the member `key: value`. */
  ghost predicate Holds(j: Json, key: string, value: Json) {
    j.Object? && Member(key, value) in j.members
  }

  /** The event's content is a JSON object with that member. */
  ghost predicate Says(event: Pdu, key: string, value: Json) {
    Parse(event.contentJson).Ok? && Holds(Parse(event.contentJson).value, key, value)
  }

  const I64_LIMIT: int := 0x8000_0000_0000_0000

  /** The value is a number that stands for the 64-bit integer `n`. */
  predicate StandsFor(value: Json, n: int) {
    value.Number? && -I64_LIMIT <= n < I64_LIMIT && (value.n == n || (n == I64_LIMIT - 1 && value.n == I64_LIMIT))
  }

  ghost predicate HoldsNumber(j: Json, key: string, n: int) {
    exists v :: Holds(j, key, v) && StandsFor(v, n)
  }

  ghost predicate HoldsNumberWithin(j: Json, group: string, key: string, n: int) {
    exists g :: Holds(j, group, g) && HoldsNumber(g, key, n)
  }

  // ---------------------------------------------------------------------------
  // Readers
  // ---------------------------------------------------------------------------

  lemma {:induction false} LookupIs(members: seq<Member>, key: string)
    requires KeysAscend(members)
    ensures forall v :: Lookup(members, key) == Some(v) <==> Member(key, v) in members
  {
    if members != [] {
      LookupIs(members[1..], key);
      assert forall m :: m in members <==> m == members[0] || m in members[1..];
      if members[0].key == key {
        StrLessTotal(key, key);
        assert forall m | m in members[1..] :: StrLess(key, m.key);
      }
    }
  }

  lemma GetIs(j: Json, key: string)
    requires WellFormed(j)
    ensures forall v :: j.Get(key) == Some(v) <==> Holds(j, key, v)
    ensures j.Get(key).Some? ==> WellFormed(j.Get(key).value)
  {
    if j.Object? {
      LookupIs(j.members, key);
      if j.Get(key).Some? {
        assert MemberWellFormed(Member(key, j.Get(key).value));
      }
    }
  }

  lemma GetStrIs(j: Json, key: string)
    requires WellFormed(j)
    ensures forall s :: j.GetStr(key) == Some(s) <==> Holds(j, key, Str(s))
  {
    GetIs(j, key);
  }

  lemma GetI64Is(j: Json, key: string)
    requires WellFormed(j)
    ensures forall n :: j.GetI64(key) == Some(n) <==> HoldsNumber(j, key, n)
  {
    GetIs(j, key);
  }

  lemma ContentIs(event: Pdu)
    ensures Content(event).Some? <==> Parse(event.contentJson).Ok?
    ensures Content(event).Some? ==> WellFormed(Content(event).value) && Parse(event.contentJson) == Ok(Content(event).value)
  {
    if Content(event).Some? {
      PrintIsCanonical(event.contentJson);
    }
  }

  lemma ContentStrIs(event: Pdu, key: string)
    ensures forall s :: ContentStr(event, key) == Some(s) <==> Says(event, key, Str(s))
  {
    ContentIs(event);
    if Content(event).Some? {
      GetStrIs(Content(event).value, key);
    }
  }

  /** A membership is what the content's `membership` says, if that is a string. */
  lemma MembershipIs(event: Pdu)
    ensures forall m :: MembershipOf(event) == Some(m) <==> Says(event, "membership", Str(m))
  {
    ContentStrIs(event, "membership");
  }

  // ---------------------------------------------------------------------------
  // Power levels
  // ---------------------------------------------------------------------------

  /** The level a power-levels content sets under `key`, or the default. */
  ghost predicate LevelFrom(pl: Json, key: string, fallback: int, n: int) {
    HoldsNumber(pl, key, n) || (n == fallback && forall m :: !HoldsNumber(pl, key, m))
  }

  /** The user's level under `users`, else `users_default`, else 0. */
  ghost predicate PowerFrom(pl: Json, user: string, n: int) {
    || HoldsNumberWithin(pl, "users", user, n)
    || ((forall m :: !HoldsNumberWithin(pl, "users", user, m)) && LevelFrom(pl, "users_default", 0, n))
  }

  /** The type's own level under `events`, else the default for state or message events. */
  ghost predicate EventLevelFrom(pl: Json, kind: string, isState: bool, n: int) {
    || HoldsNumberWithin(pl, "events", kind, n)
    || ((forall m :: !HoldsNumberWithin(pl, "events", kind, m))
        && if isState then LevelFrom(pl, "state_default", 50, n) else LevelFrom(pl, "events_default", 0, n))
  }

  lemma GetWithinIs(j: Json, group: string, key: string)
    requires WellFormed(j)
    ensures forall n :: HoldsNumberWithin(j, group, key, n) <==> j.Get(group).Some? && j.Get(group).value.GetI64(key) == Some(n)
  {
    GetIs(j, group);
    if j.Get(group).Some? {
      GetI64Is(j.Get(group).value, key);
    }
  }

  lemma LevelIs(pl: Json, key: string, fallback: int)
    requires WellFormed(pl)
    ensures forall n :: LevelFrom(pl, key, fallback, n) <==>
      n == (match pl.GetI64(key) case Some(m) => m case None => fallback)
  {
    hide HoldsNumber;
    GetI64Is(pl, key);
    assert pl.GetI64(key).Some? ==> HoldsNumber(pl, key, pl.GetI64(key).value);
  }

  /** A user's level is the number under `users`, else under `users_default`, else 0. */
  lemma UserLevelIs(pl: Json, user: string)
    requires WellFormed(pl)
    ensures forall n :: UserLevel(pl, user) == n <==> PowerFrom(pl, user, n)
  {
    hide HoldsNumberWithin, LevelFrom;
    GetWithinIs(pl, "users", user);
    LevelIs(pl, "users_default", 0);
    assert forall n :: HoldsNumberWithin(pl, "users", user, n) ==> n == UserLevel(pl, user);
    if pl.Get("users").Some? && pl.Get("users").value.GetI64(user).Some? {
      assert HoldsNumberWithin(pl, "users", user, UserLevel(pl, user));
    }
  }
}
