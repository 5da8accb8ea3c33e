/** The resolved-state cache: one resolver, one call after another. */
module ResolverCache {
  import opened Orders
  import opened Json
  import opened Events
  import opened Auth
  import opened AuthChain
  import opened StateRes
  import opened StateResLaws
  import opened StateResLocal
  import opened Resolver

  type Key = seq<EventId>

  /** The sorted, deduplicated ids of an input. */
  function InputKey(states: set<StateMap>): Key {
    StrLessIsStrictTotal();
    Ascending(StrLess, InputIds(states))
  }

  lemma SameKeySameIds(a: set<StateMap>, b: set<StateMap>)
    ensures InputKey(a) == InputKey(b) <==> InputIds(a) == InputIds(b)
  {
    StrLessIsStrictTotal();
    AscendingIsSorted(StrLess, InputIds(a));
    AscendingIsSorted(StrLess, InputIds(b));
    if InputKey(a) == InputKey(b) {
      assert forall id :: id in InputIds(a) <==> id in InputKey(a);
      assert forall id :: id in InputIds(b) <==> id in InputKey(b);
    }
  }

  /** One request: the set of input maps and the events known when it was made. */
  datatype Call = Call(states: set<StateMap>, pdus: Pdus)

  predicate Conflicted(call: Call) {
    ConflictedSlots(call.states) != {}
  }

  ghost function Answer(call: Call, sig: SigCheck): StateMap {
    Resolve(call.states, call.pdus, sig)
  }

  /** The same input maps, and events that agree on their auth chains. */
  ghost predicate SameRequest(a: Call, b: Call) {
    a.states == b.states && AgreeOn(Scope(a.states, a.pdus), a.pdus, b.pdus)
  }

  lemma SameRequestSameAnswer(a: Call, b: Call, sig: SigCheck)
    requires SameRequest(a, b)
    ensures Answer(a, sig) == Answer(b, sig)
  {
    ResolveIsLocal(a.states, a.pdus, b.pdus, sig);
  }

  // ---------------------------------------------------------------------------
  // The cache as a value
  // ---------------------------------------------------------------------------

  datatype Cache = Cache(entries: map<Key, StateMap>, hits: nat, misses: nat)

  const EMPTY_CACHE := Cache(map[], 0, 0)

  ghost function Serve(cache: Cache, call: Call, sig: SigCheck): (Cache, StateMap) {
    if !Conflicted(call) then (cache, Unconflicted(call.states))
    else
      var key := InputKey(call.states);
      if key in cache.entries then (cache.(hits := cache.hits + 1), cache.entries[key])
      else
        var resolved := Answer(call, sig);
        (Cache(cache.entries[key := resolved], cache.hits, cache.misses + 1), resolved)
  }

  /** The cache after serving `calls` in turn, starting empty. */
  ghost function CacheAfter(calls: seq<Call>, sig: SigCheck): Cache {
    if calls == [] then EMPTY_CACHE
    else Serve(CacheAfter(calls[..|calls| - 1], sig), calls[|calls| - 1], sig).0
  }

  predicate Asks(call: Call, key: Key) {
    Conflicted(call) && InputKey(call.states) == key
  }

  /** The index of the first call that needed resolving and had `key`. */
  function FirstWithKey(calls: seq<Call>, key: Key): (r: Option<nat>)
    ensures r.Some? ==> r.value < |calls|
  {
    if calls == [] then None
    else
      var n := |calls| - 1;
      match FirstWithKey(calls[..n], key)
      case Some(i) => Some(i)
      case None => if Asks(calls[n], key) then Some(n) else None
  }

  lemma {:induction false} FirstWithKeyIsFirst(calls: seq<Call>, key: Key)
    ensures match FirstWithKey(calls, key)
            case Some(i) => Asks(calls[i], key) && forall j | 0 <= j < i :: !Asks(calls[j], key)
            case None => forall j | 0 <= j < |calls| :: !Asks(calls[j], key)
  {
    hide Asks;
    if calls != [] {
      FirstWithKeyIsFirst(calls[..|calls| - 1], key);
    }
  }

  function ConflictedCount(calls: seq<Call>): nat {
    if calls == [] then 0
    else ConflictedCount(calls[..|calls| - 1]) + if Conflicted(calls[|calls| - 1]) then 1 else 0
  }

  /** What the cache holds: for each key met, the answer to the first call that had it. */
  lemma {:induction false} CacheHoldsFirstAnswers(calls: seq<Call>, sig: SigCheck, key: Key)
    ensures match FirstWithKey(calls, key)
            case Some(i) =>
              key in CacheAfter(calls, sig).entries && CacheAfter(calls, sig).entries[key] == Answer(calls[i], sig)
            case None => key !in CacheAfter(calls, sig).entries
  {
    hide Answer, InputKey, Conflicted, Unconflicted;
    if calls != [] {
      CacheHoldsFirstAnswers(calls[..|calls| - 1], sig, key);
    }
  }

  /** Each conflicted call counts once, as a hit or as a miss; a conflict-free one not at all. */
  lemma {:induction false} HitsPlusMisses(calls: seq<Call>, sig: SigCheck)
    ensures CacheAfter(calls, sig).hits + CacheAfter(calls, sig).misses == ConflictedCount(calls)
    ensures |CacheAfter(calls, sig).entries| == CacheAfter(calls, sig).misses
  {
    hide Answer, InputKey, Conflicted, Unconflicted;
    if calls != [] {
      HitsPlusMisses(calls[..|calls| - 1], sig);
    }
  }

  /**
   The exact answer to any call of any run: a conflict-free call gets its agreed state, and any
   other gets the resolution of the first call of the run that had the same key.
   */
  lemma ServedAnswer(calls: seq<Call>, call: Call, sig: SigCheck)
    ensures var served := Serve(CacheAfter(calls, sig), call, sig).1;
            if !Conflicted(call) then served == Answer(call, sig)
            else
              var first := FirstWithKey(calls, InputKey(call.states));
              served == Answer(if first.Some? then calls[first.value] else call, sig)
  {
    CacheHoldsFirstAnswers(calls, sig, InputKey(call.states));
  }

  /** The exact form: a conflicted call with an earlier asker is answered rightly just when that one deserves its answer. */
  lemma ServedRightlyIff(calls: seq<Call>, call: Call, sig: SigCheck)
    requires Conflicted(call)
    ensures var first := FirstWithKey(calls, InputKey(call.states));
            Serve(CacheAfter(calls, sig), call, sig).1 == Answer(call, sig) <==>
              (first.Some? ==> Answer(calls[first.value], sig) == Answer(call, sig))
  {
    hide Answer, InputKey, Conflicted, Serve;
    ServedAnswer(calls, call, sig);
  }

  /** Of the calls that reach the cache, those over the same ids as `call` are the same request. */
  ghost predicate IdsDecide(calls: seq<Call>, call: Call) {
    forall i | 0 <= i < |calls| && Conflicted(calls[i]) && Conflicted(call)
               && InputIds(calls[i].states) == InputIds(call.states) :: SameRequest(calls[i], call)
  }

  /** Caching is invisible in every run whose conflicted calls with equal keys are equal requests. */
  lemma CachingIsTransparent(calls: seq<Call>, call: Call, sig: SigCheck)
    requires IdsDecide(calls, call)
    ensures Serve(CacheAfter(calls, sig), call, sig).1 == Answer(call, sig)
  {
    hide Answer, InputKey, Conflicted, Serve, SameRequest, InputIds;
    ServedAnswer(calls, call, sig);
    FirstWithKeyIsFirst(calls, InputKey(call.states));
    var first := FirstWithKey(calls, InputKey(call.states));
    if first.Some? && Conflicted(call) {
      SameKeySameIds(calls[first.value].states, call.states);
      SameRequestSameAnswer(calls[first.value], call, sig);
    }
  }

  const NAME := Slot("m.room.name", "")
  const TOPIC := Slot("m.room.topic", "")
  const NAME_A: StateMap := map[NAME := "$a"]
  const NAME_B: StateMap := map[NAME := "$b"]
  const NAME_A_TOPIC_B: StateMap := map[NAME := "$a", TOPIC := "$b"]
  const NAMES_DIFFER := Call({NAME_A, NAME_B}, map[])
  const TOPIC_MISSING := Call({NAME_A, NAME_A_TOPIC_B}, map[])

  /**
   Without that condition it is not: two inputs over the same two ids, arranged differently,
   get one answer between them, and the second deserves another.
   */
  lemma StaleAnswer(sig: SigCheck)
    ensures Conflicted(NAMES_DIFFER) && Conflicted(TOPIC_MISSING)
    ensures InputIds(NAMES_DIFFER.states) == InputIds(TOPIC_MISSING.states)
    ensures Serve(CacheAfter([NAMES_DIFFER], sig), TOPIC_MISSING, sig).1 == Answer(NAMES_DIFFER, sig)
    ensures Answer(NAMES_DIFFER, sig) != Answer(TOPIC_MISSING, sig)
  {
    StaleInputs();
    StaleAnswersDiffer(sig);
    SameKeySameIds(NAMES_DIFFER.states, TOPIC_MISSING.states);
    hide Answer, InputKey, Conflicted, InputIds;
    assert [NAMES_DIFFER][..0] == [];
  }

  lemma StaleInputs()
    ensures Conflicted(NAMES_DIFFER) && Conflicted(TOPIC_MISSING)
    ensures InputIds(NAMES_DIFFER.states) == InputIds(TOPIC_MISSING.states)
  {
    assert NAME_A[NAME] == "$a" && NAME_B[NAME] == "$b" && NAME_A_TOPIC_B[TOPIC] == "$b" && TOPIC !in NAME_A;
    assert InputIds(NAMES_DIFFER.states) == {"$a", "$b"};
    assert InputIds(TOPIC_MISSING.states) == {"$a", "$b"};
    assert NAME in ConflictedSlots(NAMES_DIFFER.states) && TOPIC in ConflictedSlots(TOPIC_MISSING.states);
  }

  /** With no events known nothing conflicted can be applied, so only the agreed slots remain. */
  lemma {:induction false} NothingApplies(state: StateMap, ids: seq<EventId>, sig: SigCheck)
    ensures ApplyAll(state, ids, map[], sig) == state
  {
    if ids != [] {
      NothingApplies(state, ids[..|ids| - 1], sig);
    }
  }

  lemma StaleAnswersDiffer(sig: SigCheck)
    ensures Answer(NAMES_DIFFER, sig) != Answer(TOPIC_MISSING, sig)
  {
    hide Answer, AgreedSlots;
    AgreedOnly(NAMES_DIFFER.states, sig);
    AgreedOnly(TOPIC_MISSING.states, sig);
    OneIsAgreed(NAME_A, NAME_B, NAME_A_TOPIC_B, NAME);
  }

  lemma OneIsAgreed(na: StateMap, nb: StateMap, both: StateMap, name: Slot)
    requires name in na && name in nb && name in both && na[name] == both[name] != nb[name]
    ensures name !in AgreedSlots({na, nb}) && name in AgreedSlots({na, both})
  {
    assert Agreed({na, both}, name, na[name]);
  }

  lemma AgreedOnly(states: set<StateMap>, sig: SigCheck)
    ensures Answer(Call(states, map[]), sig).Keys == AgreedSlots(states)
  {
    hide PowerPart, MainlinePart, AgreedSlots, ConflictedSlots;
    var base := Unconflicted(states);
    NothingApplies(base, PowerPart(states, map[]), sig);
    NothingApplies(base, MainlinePart(states, map[], sig), sig);
  }

  // ---------------------------------------------------------------------------
  // input_key, and the resolver as it runs
  // ---------------------------------------------------------------------------

  /** `dedup`: drops each element equal to the one before it. */
  function Dedup(xs: seq<EventId>): seq<EventId> {
    if |xs| < 2 then xs
    else if xs[0] == xs[1] then Dedup(xs[1..])
    else [xs[0]] + Dedup(xs[1..])
  }

  ghost predicate WeaklyAscending(xs: seq<EventId>) {
    forall i, j | 0 <= i < j < |xs| :: !StrLess(xs[j], xs[i])
  }

  lemma {:induction false} InsertKeepsOrder(x: EventId, xs: seq<EventId>)
    requires WeaklyAscending(xs)
    ensures WeaklyAscending(Insert(StrLess, x, xs))
    ensures forall y :: y in Insert(StrLess, x, xs) <==> y == x || y in xs
  {
    hide StrLess;
    StrLessIsStrictTotal();
    if xs == [] {
    } else if !StrLess(xs[0], x) {
      var r := [x] + xs;
      forall i, j | 0 <= i < j < |r| ensures !StrLess(r[j], r[i]) {
        if i == 0 && j > 1 {
          assert !StrLess(xs[j - 1], xs[0]);
        }
      }
    } else {
      InsertKeepsOrder(x, xs[1..]);
      var rest := Insert(StrLess, x, xs[1..]);
      var r := [xs[0]] + rest;
      forall i, j | 0 <= i < j < |r| ensures !StrLess(r[j], r[i]) {
        if i == 0 {
          assert r[j] == rest[j - 1] && rest[j - 1] in rest;
          if r[j] in xs[1..] {
            var k :| 0 <= k < |xs[1..]| && xs[1..][k] == r[j];
            assert !StrLess(xs[k + 1], xs[0]);
          }
        }
      }
    }
  }

  lemma {:induction false} SortKeepsElements(xs: seq<EventId>)
    ensures WeaklyAscending(SortBy(StrLess, xs))
    ensures forall y :: y in SortBy(StrLess, xs) <==> y in xs
  {
    hide WeaklyAscending, Insert;
    if xs == [] {
      NothingAscends();
    } else {
      SortKeepsElements(xs[1..]);
      InsertKeepsOrder(xs[0], SortBy(StrLess, xs[1..]));
      assert forall y :: y in xs <==> y == xs[0] || y in xs[1..];
    }
  }

  lemma NothingAscends()
    ensures WeaklyAscending([])
  {
  }

  lemma {:induction false} DedupAscends(xs: seq<EventId>)
    requires WeaklyAscending(xs)
    ensures IsAscending(StrLess, Dedup(xs))
    ensures forall y :: y in Dedup(xs) <==> y in xs
    ensures xs != [] ==> Dedup(xs) != [] && Dedup(xs)[0] == xs[0]
  {
    hide StrLess;
    StrLessIsStrictTotal();
    if |xs| >= 2 {
      DedupAscends(xs[1..]);
      assert forall y :: y in xs <==> y == xs[0] || y in xs[1..];
      if xs[0] != xs[1] {
        var rest := Dedup(xs[1..]);
        var r := [xs[0]] + rest;
        assert StrLess(xs[0], xs[1]);
        forall i, j | 0 <= i < j < |r| ensures StrLess(r[i], r[j]) {
          if i == 0 && j > 1 {
            assert StrLess(rest[0], rest[j - 1]);
          }
        }
      }
    }
  }

  lemma DedupSortIsKey(ids: seq<EventId>, states: set<StateMap>)
    requires Elements(ids) == InputIds(states)
    ensures Dedup(SortBy(StrLess, ids)) == InputKey(states)
  {
    hide StrLess, Dedup, SortBy, WeaklyAscending, InputIds, IsAscending;
    StrLessIsStrictTotal();
    SortKeepsElements(ids);
    DedupAscends(SortBy(StrLess, ids));
    AscendingIsUnique(StrLess, InputIds(states), Dedup(SortBy(StrLess, ids)));
  }

  method InputKeyOf(states: seq<StateMap>) returns (key: Key)
    ensures key == InputKey(Elements(states))
  {
    hide SortBy, Dedup;
    var ids := [];
    for i := 0 to |states|
      invariant Elements(ids) == InputIds(Elements(states[..i]))
    {
      var values := ValuesOf(states[i]);
      InputIdsSnoc(states[..i], states[i]);
      assert states[..i + 1] == states[..i] + [states[i]];
      assert Elements(ids + values) == Elements(ids) + Elements(values);
      ids := ids + values;
    }
    assert states[..|states|] == states;
    key := Dedup(SortBy(StrLess, ids));
    DedupSortIsKey(ids, Elements(states));
  }

  lemma InputIdsSnoc(states: seq<StateMap>, s: StateMap)
    ensures InputIds(Elements(states + [s])) == InputIds(Elements(states)) + s.Values
  {
    assert Elements(states + [s]) == Elements(states) + {s};
  }

  /** The memoising resolver. */
  class CachedResolver {
    var cache: map<Key, StateMap>
    var hits: nat
    var misses: nat

    constructor ()
      ensures Contents() == EMPTY_CACHE
    {
      cache := map[];
      hits := 0;
      misses := 0;
    }

    ghost function Contents(): Cache
      reads this
    {
      Cache(cache, hits, misses)
    }

    method Resolve(states: seq<StateMap>, pdus: Pdus, sig: SigCheck, ghost rank: EventId -> nat)
      returns (resolved: StateMap)
      requires Acyclic(pdus, rank)
      modifies this
      ensures (Contents(), resolved) == Serve(old(Contents()), Call(Elements(states), pdus), sig)
    {
      hide Elements, InputKey, ConflictedSlots, Unconflicted, StateRes.Resolve, Acyclic;
      var unconflicted, conflicted := Separate(states);
      if conflicted == map[] {
        assert conflicted.Keys == {};
        return unconflicted;
      }
      assert ConflictedSlots(Elements(states)) != {} by {
        var k :| k in conflicted;
      }
      var key := InputKeyOf(states);
      if key in cache {
        hits := hits + 1;
        return cache[key];
      }
      misses := misses + 1;
      resolved := ResolveStates(states, pdus, sig, rank);
      cache := cache[key := resolved];
    }
  }
}
