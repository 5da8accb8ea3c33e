/** Auth chains: the transitive closure of `auth_events`, and authorization against a complete chain. */
module AuthChain {
  import opened Orders
  import opened Events
  import opened Auth

  type Pdus = map<EventId, Pdu>

  /** The events `id` cites, as far as `byId` knows. */
  function Parents(id: EventId, byId: Pdus): set<EventId> {
    if id in byId then Elements(byId[id].authEvents) else {}
  }

  /** A path of citations, each step followed through `byId`. */
  ghost predicate IsPath(path: seq<EventId>, byId: Pdus) {
    path != [] && forall i | 0 <= i < |path| - 1 :: path[i + 1] in Parents(path[i], byId)
  }

  ghost predicate Reaches(roots: set<EventId>, id: EventId, byId: Pdus) {
    exists path :: IsPath(path, byId) && path[0] in roots && path[|path| - 1] == id
  }

  /** Everything that could be on a chain: the roots and every cited event. */
  function Universe(roots: set<EventId>, byId: Pdus): set<EventId> {
    roots + set id, a | id in byId && a in byId[id].authEvents :: a
  }

  /** The auth chain of `roots`: the roots and every event reachable from them. */
  ghost function Chain(roots: set<EventId>, byId: Pdus): set<EventId> {
    set id | id in Universe(roots, byId) && Reaches(roots, id, byId)
  }

  lemma {:induction false} PathStaysInClosedSet(path: seq<EventId>, byId: Pdus, s: set<EventId>)
    requires IsPath(path, byId) && path[0] in s
    requires forall id | id in s :: Parents(id, byId) <= s
    ensures path[|path| - 1] in s
  {
    if |path| > 1 {
      var init := path[..|path| - 1];
      PathStaysInClosedSet(init, byId, s);
      assert path[|path| - 1] in Parents(init[|init| - 1], byId);
    }
  }

  lemma RootReaches(roots: set<EventId>, id: EventId, byId: Pdus)
    requires id in roots
    ensures Reaches(roots, id, byId)
  {
    assert IsPath([id], byId);
  }

  lemma StepReaches(roots: set<EventId>, id: EventId, parent: EventId, byId: Pdus)
    requires Reaches(roots, id, byId) && parent in Parents(id, byId)
    ensures Reaches(roots, parent, byId)
  {
    var path :| IsPath(path, byId) && path[0] in roots && path[|path| - 1] == id;
    var longer := path + [parent];
    assert IsPath(longer, byId);
    assert longer[0] in roots && longer[|longer| - 1] == parent;
  }

  lemma ReachableIsCited(roots: set<EventId>, id: EventId, byId: Pdus)
    requires Reaches(roots, id, byId)
    ensures id in Universe(roots, byId)
  {
    var path :| IsPath(path, byId) && path[0] in roots && path[|path| - 1] == id;
    if |path| > 1 {
      assert path[|path| - 2 + 1] in Parents(path[|path| - 2], byId);
    }
  }

  /** Membership in a chain is reachability, nothing less and nothing more. */
  lemma ChainIsReachability(roots: set<EventId>, byId: Pdus, id: EventId)
    ensures id in Chain(roots, byId) <==> Reaches(roots, id, byId)
  {
    if Reaches(roots, id, byId) {
      ReachableIsCited(roots, id, byId);
    }
  }

  /** Every citation of a member is a member. */
  ghost predicate Closed(s: set<EventId>, byId: Pdus) {
    forall id | id in s :: Parents(id, byId) <= s
  }

  /** The chain holds its roots and is closed under citation... */
  lemma ChainIsClosed(roots: set<EventId>, byId: Pdus)
    ensures roots <= Chain(roots, byId) && Closed(Chain(roots, byId), byId)
  {
    var chain := Chain(roots, byId);
    forall id | id in roots ensures id in chain {
      RootReaches(roots, id, byId);
    }
    forall id | id in chain ensures Parents(id, byId) <= chain {
      forall p | p in Parents(id, byId) ensures p in chain {
        StepReaches(roots, id, p, byId);
        ReachableIsCited(roots, p, byId);
      }
    }
  }

  /** ...and is the least such set. */
  lemma ChainIsLeast(roots: set<EventId>, byId: Pdus, s: set<EventId>)
    requires roots <= s && Closed(s, byId)
    ensures Chain(roots, byId) <= s
  {
    forall id | id in Chain(roots, byId) ensures id in s {
      var path :| IsPath(path, byId) && path[0] in roots && path[|path| - 1] == id;
      PathStaysInClosedSet(path, byId, s);
    }
  }

  lemma ChainIsMonotone(a: set<EventId>, b: set<EventId>, byId: Pdus)
    requires a <= b
    ensures Chain(a, byId) <= Chain(b, byId)
  {
    hide Chain, Closed;
    ChainIsClosed(b, byId);
    ChainIsLeast(a, byId, Chain(b, byId));
  }

  /** Closing a chain again adds nothing. */
  lemma ChainIsIdempotent(roots: set<EventId>, byId: Pdus)
    ensures Chain(Chain(roots, byId), byId) == Chain(roots, byId)
  {
    hide Chain, Closed;
    ChainIsClosed(roots, byId);
    ChainIsLeast(Chain(roots, byId), byId, Chain(roots, byId));
    ChainIsClosed(Chain(roots, byId), byId);
  }

  lemma UnionIsClosed(a: set<EventId>, b: set<EventId>, byId: Pdus)
    requires Closed(a, byId) && Closed(b, byId)
    ensures Closed(a + b, byId)
  {
  }

  /** The chain of several groups of roots is the union of their chains. */
  lemma ChainDistributesOverUnion(a: set<EventId>, b: set<EventId>, byId: Pdus)
    ensures Chain(a + b, byId) == Chain(a, byId) + Chain(b, byId)
  {
    hide Chain, Closed;
    ChainIsClosed(a, byId);
    ChainIsClosed(b, byId);
    UnionIsClosed(Chain(a, byId), Chain(b, byId), byId);
    ChainIsLeast(a + b, byId, Chain(a, byId) + Chain(b, byId));
    ChainIsMonotone(a, a + b, byId);
    ChainIsMonotone(b, a + b, byId);
  }

  ghost predicate SameParents(ids: set<EventId>, p: Pdus, q: Pdus) {
    forall id | id in ids :: Parents(id, p) == Parents(id, q)
  }

  lemma ClosedInBoth(ids: set<EventId>, p: Pdus, q: Pdus)
    requires Closed(ids, p) && SameParents(ids, p, q)
    ensures Closed(ids, q)
  {
  }

  /** A chain looks only at the events on it. */
  lemma ChainIsLocal(roots: set<EventId>, p: Pdus, q: Pdus)
    requires SameParents(Chain(roots, p), p, q)
    ensures Chain(roots, p) == Chain(roots, q)
  {
    hide Chain, Closed, SameParents;
    ChainIsClosed(roots, p);
    ClosedInBoth(Chain(roots, p), p, q);
    ChainIsLeast(roots, q, Chain(roots, p));
    forall id | id in Chain(roots, p) ensures id in Chain(roots, q) {
      ChainIsReachability(roots, p, id);
      ReachesInBoth(roots, id, p, q);
      ChainIsReachability(roots, q, id);
    }
  }

  lemma ReachesInBoth(roots: set<EventId>, id: EventId, p: Pdus, q: Pdus)
    requires Reaches(roots, id, p) && SameParents(Chain(roots, p), p, q)
    ensures Reaches(roots, id, q)
  {
    var path :| IsPath(path, p) && path[0] in roots && path[|path| - 1] == id;
    PathIsShared(path, roots, p, q);
  }

  lemma PathIsShared(path: seq<EventId>, roots: set<EventId>, p: Pdus, q: Pdus)
    requires IsPath(path, p) && path[0] in roots
    requires SameParents(Chain(roots, p), p, q)
    ensures IsPath(path, q)
  {
    forall i | 0 <= i < |path| - 1 ensures path[i + 1] in Parents(path[i], q) {
      var prefix := path[..i + 1];
      assert IsPath(prefix, p) && prefix[0] in roots && prefix[|prefix| - 1] == path[i];
      ChainIsReachability(roots, p, path[i]);
    }
  }

  // ---------------------------------------------------------------------------
  // The worklist
  // ---------------------------------------------------------------------------

  lemma ElementsSnoc(ids: seq<EventId>, id: EventId)
    ensures Elements(ids + [id]) == Elements(ids) + {id}
  {
  }

  lemma CitedIsInUniverse(roots: set<EventId>, byId: Pdus, id: EventId)
    requires id in byId
    ensures Elements(byId[id].authEvents) <= Universe(roots, byId)
  {
  }

  lemma ReachesParents(roots: set<EventId>, byId: Pdus, id: EventId)
    requires Reaches(roots, id, byId)
    ensures forall p | p in Parents(id, byId) :: Reaches(roots, p, byId)
  {
    forall p | p in Parents(id, byId) ensures Reaches(roots, p, byId) {
      StepReaches(roots, id, p, byId);
    }
  }

  /** Everything found so far is reachable, and everything still to find is found or waiting. */
  ghost predicate Searching(seen: set<EventId>, waiting: set<EventId>, roots: set<EventId>, byId: Pdus) {
    && seen + waiting <= Universe(roots, byId)
    && (forall id | id in seen + waiting :: Reaches(roots, id, byId))
    && roots <= seen + waiting
    && (forall id | id in seen :: Parents(id, byId) <= seen + waiting)
  }

  lemma SearchStarts(roots: set<EventId>, byId: Pdus)
    ensures Searching({}, roots, roots, byId)
  {
    forall id | id in roots ensures Reaches(roots, id, byId) {
      RootReaches(roots, id, byId);
    }
  }

  lemma SearchEnds(seen: set<EventId>, roots: set<EventId>, byId: Pdus)
    requires Searching(seen, {}, roots, byId)
    ensures seen == Chain(roots, byId)
  {
    assert Closed(seen, byId);
    ChainIsLeast(roots, byId, seen);
    forall id | id in seen ensures id in Chain(roots, byId) {
      ChainIsReachability(roots, byId, id);
    }
  }

  lemma SearchTurn(seen: set<EventId>, waiting: set<EventId>, id: EventId, after: set<EventId>, roots: set<EventId>, byId: Pdus)
    requires Searching(seen, waiting + {id}, roots, byId)
    requires waiting <= after <= waiting + Parents(id, byId)
    requires Parents(id, byId) <= seen + {id} + after
    ensures Searching(seen + {id}, after, roots, byId)
  {
    hide Reaches, Parents, Universe;
    ReachesParents(roots, byId, id);
    ParentsOf(id, byId);
    if id in byId {
      CitedIsInUniverse(roots, byId, id);
    }
  }

  /** auth_chain: terminates on any map, cyclic and incomplete ones included. */
  method AuthChainOf(roots: seq<EventId>, byId: Pdus) returns (seen: set<EventId>)
    ensures seen == Chain(Elements(roots), byId)
  {
    hide Searching, Chain, Universe, Elements, Parents;
    ghost var rootSet := Elements(roots);
    seen := {};
    var stack := roots;
    SearchStarts(rootSet, byId);
    while stack != []
      invariant Searching(seen, Elements(stack), rootSet, byId)
      decreases Universe(rootSet, byId) - seen, |stack|
    {
      var id := stack[|stack| - 1];
      ElementsSnoc(stack[..|stack| - 1], id);
      assert stack == stack[..|stack| - 1] + [id];
      stack := stack[..|stack| - 1];
      if id in seen {
        SearchSkip(seen, Elements(stack), id, rootSet, byId);
        continue;
      }
      SearchBound(seen, Elements(stack) + {id}, rootSet, byId);
      ghost var before, waiting := seen, Elements(stack);
      seen := seen + {id};
      if id in byId {
        stack := PushUnseen(stack, byId[id].authEvents, seen);
      }
      ParentsOf(id, byId);
      SearchTurn(before, waiting, id, Elements(stack), rootSet, byId);
    }
    assert Elements<EventId>([]) == {} by { ElementsOfNothing(); }
    SearchEnds(seen, rootSet, byId);
  }

  lemma ElementsOfNothing()
    ensures Elements<EventId>([]) == {}
  {
  }

  lemma ParentsOf(id: EventId, byId: Pdus)
    ensures Parents(id, byId) == if id in byId then Elements(byId[id].authEvents) else {}
  {
  }

  lemma SearchSkip(seen: set<EventId>, waiting: set<EventId>, id: EventId, roots: set<EventId>, byId: Pdus)
    requires Searching(seen, waiting + {id}, roots, byId) && id in seen
    ensures Searching(seen, waiting, roots, byId)
  {
    assert seen + (waiting + {id}) == seen + waiting;
  }

  lemma SearchBound(seen: set<EventId>, waiting: set<EventId>, roots: set<EventId>, byId: Pdus)
    requires Searching(seen, waiting, roots, byId)
    ensures seen + waiting <= Universe(roots, byId)
  {
  }

  /** The inner loop: push the cited events not seen yet. */
  method PushUnseen(stack: seq<EventId>, parents: seq<EventId>, seen: set<EventId>) returns (r: seq<EventId>)
    ensures Elements(stack) <= Elements(r) <= Elements(stack) + Elements(parents)
    ensures Elements(parents) <= seen + Elements(r)
  {
    r := stack;
    for i := 0 to |parents|
      invariant Elements(stack) <= Elements(r) <= Elements(stack) + Elements(parents)
      invariant Elements(parents[..i]) <= seen + Elements(r)
    {
      ElementsSnoc(parents[..i], parents[i]);
      assert parents[..i + 1] == parents[..i] + [parents[i]];
      if parents[i] !in seen {
        ElementsSnoc(r, parents[i]);
        r := r + [parents[i]];
      }
    }
    assert parents[..|parents|] == parents;
  }

  // ---------------------------------------------------------------------------
  // Authorization against a complete chain
  // ---------------------------------------------------------------------------

  /** The events of `ids` that `byId` holds, in the order cited. */
  function Lookups(ids: seq<EventId>, byId: Pdus): seq<Pdu> {
    if ids == [] then []
    else (if ids[0] in byId then [byId[ids[0]]] else []) + Lookups(ids[1..], byId)
  }

  ghost predicate HasCreate(chain: set<EventId>, byId: Pdus) {
    exists id :: id in chain && id in byId && byId[id].kind == ROOM_CREATE
  }

  ghost function CheckAuthWithChain(event: Pdu, byId: Pdus, sig: SigCheck): Verdict {
    var chain := Chain(Elements(event.authEvents), byId);
    if !(chain <= byId.Keys) then Err(MissingAuthEvent)
    else if event.kind != ROOM_CREATE && !HasCreate(chain, byId) then Err(NoCreateEvent)
    else CheckAuth(event, Lookups(event.authEvents, byId), sig)
  }

  method CheckWithChain(event: Pdu, byId: Pdus, sig: SigCheck) returns (r: Verdict)
    ensures r == CheckAuthWithChain(event, byId, sig)
  {
    var chain := AuthChainOf(event.authEvents, byId);
    if exists id :: id in chain && id !in byId {
      return Err(MissingAuthEvent);
    }
    if event.kind != ROOM_CREATE && !(exists id :: id in chain && id in byId && byId[id].kind == ROOM_CREATE) {
      return Err(NoCreateEvent);
    }
    r := CheckAuth(event, Lookups(event.authEvents, byId), sig);
  }

  /**
   An accepted event other than a create stands on a chain that is wholly present and holds a
   create event; and one of the events it cites directly is a create.
   */
  lemma AcceptedChainIsComplete(event: Pdu, byId: Pdus, sig: SigCheck)
    requires CheckAuthWithChain(event, byId, sig).Ok? && event.kind != ROOM_CREATE
    ensures forall id :: Reaches(Elements(event.authEvents), id, byId) ==> id in byId
    ensures exists id :: Reaches(Elements(event.authEvents), id, byId) && id in byId && byId[id].kind == ROOM_CREATE
    ensures exists id :: id in event.authEvents && id in byId && byId[id].kind == ROOM_CREATE
  {
    var roots := Elements(event.authEvents);
    forall id | Reaches(roots, id, byId) ensures id in byId {
      ChainIsReachability(roots, byId, id);
    }
    var c :| c in Chain(roots, byId) && c in byId && byId[c].kind == ROOM_CREATE;
    ChainIsReachability(roots, byId, c);
    var id := CreateIsListed(Lookups(event.authEvents, byId), event.authEvents, byId);
  }

  /** The events cited, one by one. */
  ghost predicate Cites(event: Pdu, byId: Pdus, cited: seq<Pdu>) {
    |cited| == |event.authEvents| && forall i | 0 <= i < |cited| :: event.authEvents[i] in byId && cited[i] == byId[event.authEvents[i]]
  }

  lemma {:induction false} LookupsInTurn(ids: seq<EventId>, byId: Pdus)
    requires forall id | id in ids :: id in byId
    ensures |Lookups(ids, byId)| == |ids| && forall i | 0 <= i < |ids| :: Lookups(ids, byId)[i] == byId[ids[i]]
  {
    if ids != [] {
      LookupsInTurn(ids[1..], byId);
    }
  }

  /**
   The exact verdict: with an event missing anywhere on the chain that error, without a create on it
   the other; and on a complete chain the rules' own verdict against the events cited, in order.
   */
  lemma ChainVerdict(event: Pdu, byId: Pdus, sig: SigCheck)
    ensures var roots, verdict := Elements(event.authEvents), CheckAuthWithChain(event, byId, sig);
      var complete := forall id | Reaches(roots, id, byId) :: id in byId;
      var founded := exists id :: Reaches(roots, id, byId) && id in byId && byId[id].kind == ROOM_CREATE;
      && (!complete <==> verdict == Err(MissingAuthEvent))
      && (complete && event.kind != ROOM_CREATE && !founded ==> verdict == Err(NoCreateEvent))
      && (complete && (event.kind == ROOM_CREATE || founded) ==>
            exists cited :: Cites(event, byId, cited) && verdict == CheckAuth(event, cited, sig))
  {
    hide Reaches, CheckAuth, Lookups;
    var roots := Elements(event.authEvents);
    forall id ensures id in Chain(roots, byId) <==> Reaches(roots, id, byId) {
      ChainIsReachability(roots, byId, id);
    }
    if forall id | Reaches(roots, id, byId) :: id in byId {
      forall id | id in event.authEvents ensures id in byId {
        RootReaches(roots, id, byId);
      }
      LookupsInTurn(event.authEvents, byId);
      assert Cites(event, byId, Lookups(event.authEvents, byId));
    }
    NeverMissing(event, Lookups(event.authEvents, byId), sig);
  }

  lemma NeverMissing(event: Pdu, state: seq<Pdu>, sig: SigCheck)
    ensures CheckAuth(event, state, sig) != Err(MissingAuthEvent)
  {
    hide ViewOf, ThirdPartyInviteIsValid, RestrictedJoinAuthorised, RedactionTargetsOwnDomain;
  }

  lemma ObserveCreate(view: AuthView, event: Pdu)
    ensures Observe(view, event).create == if event.kind == ROOM_CREATE then Some(event) else view.create
  {
  }

  lemma {:induction false} CreateSeen(state: seq<Pdu>)
    ensures ViewOf(state).create.Some? <==> exists p :: p in state && p.kind == ROOM_CREATE
    ensures ViewOf(state).create.Some? ==> ViewOf(state).create.value in state && ViewOf(state).create.value.kind == ROOM_CREATE
  {
    hide Observe;
    if state != [] {
      var init, last := state[..|state| - 1], state[|state| - 1];
      CreateSeen(init);
      ObserveCreate(ViewOf(init), last);
      assert state == init + [last];
      assert forall p :: p in state <==> p in init || p == last;
    }
  }

  lemma {:induction false} LookupsAreCited(ids: seq<EventId>, byId: Pdus, p: Pdu)
    requires p in Lookups(ids, byId)
    ensures exists id :: id in ids && id in byId && byId[id] == p
  {
    if ids[0] in byId && byId[ids[0]] == p {
    } else {
      LookupsAreCited(ids[1..], byId, p);
      var id :| id in ids[1..] && id in byId && byId[id] == p;
      assert id in ids;
    }
  }

  lemma CreateIsListed(state: seq<Pdu>, ids: seq<EventId>, byId: Pdus) returns (id: EventId)
    requires state == Lookups(ids, byId) && ViewOf(state).create.Some?
    ensures id in ids && id in byId && byId[id].kind == ROOM_CREATE
  {
    CreateSeen(state);
    var p := ViewOf(state).create.value;
    LookupsAreCited(ids, byId, p);
    id :| id in ids && id in byId && byId[id] == p;
  }
}
