/**
 Transactions: which sends append, over whole runs of a room's writers. A send looks its key up
 before it takes the lock and records it before it returns. So each send that finds its key
 unrecorded and is not refused writes one event: a send and its retries write one if they do not
 overlap, and as many as were checked before the record otherwise.
 */
module RoomTransactions {
  import opened Auth
  import opened Contents
  import opened Events
  import opened InviteChain
  import opened Json
  import opened JsonRoundTrip
  import opened Orders
  import RoomStore
  import opened RoomWriters

  type Key = (string, string)

  /** The transaction a request belongs to; a membership change has none. */
  function KeyOf(req: Request): Option<Key> {
    match req
    case Message(sender, _, _, txnId) => Some((sender, txnId))
    case Membership(_, _, _) => None
  }

  /** The request a thread is serving, from its check to its record. */
  function Serving(phase: Phase): Option<Request> {
    match phase
    case Checked(req) => Some(req)
    case Locked(req) => Some(req)
    case Linked(req, _) => Some(req)
    case Accepted(req, _) => Some(req)
    case Stored(req, _) => Some(req)
    case Applied(req, _) => Some(req)
    case _ => None
  }

  predicate Under(phase: Phase, key: Key) {
    Serving(phase).Some? && KeyOf(Serving(phase).value) == Some(key)
  }

  /** No send under the key is on its way. */
  ghost predicate Quiet(s: State, key: Key) {
    forall t: nat :: !Under(PhaseOf(s, t), key)
  }

  ghost predicate AllIdle(s: State) {
    forall t: nat :: PhaseOf(s, t).Idle?
  }

  // ---------------------------------------------------------------------------
  // Positions of a run
  // ---------------------------------------------------------------------------

  /** The state after the first n turns. */
  function At(hash: RefHash, sig: SigCheck, room: string, s: State, schedule: seq<Turn>, n: int): State
    requires 0 <= n <= |schedule|
  {
    Run(hash, sig, room, s, schedule[..n])
  }

  lemma {:induction false} RunConcat(hash: RefHash, sig: SigCheck, room: string, s: State, a: seq<Turn>, b: seq<Turn>)
    ensures Run(hash, sig, room, s, a + b) == Run(hash, sig, room, Run(hash, sig, room, s, a), b)
    decreases |a|
  {
    hide Next;
    if a == [] {
      assert a + b == b;
    } else {
      assert (a + b)[0] == a[0] && (a + b)[1..] == a[1..] + b;
      RunConcat(hash, sig, room, Next(hash, sig, room, s, a[0]), a[1..], b);
    }
  }

  lemma AtStep(hash: RefHash, sig: SigCheck, room: string, s: State, schedule: seq<Turn>, n: int)
    requires 0 <= n < |schedule|
    ensures At(hash, sig, room, s, schedule, n + 1) == Next(hash, sig, room, At(hash, sig, room, s, schedule, n), schedule[n])
  {
    hide Next;
    var turn := schedule[n];
    assert schedule[..n + 1] == schedule[..n] + [turn] && [turn][1..] == [];
    RunConcat(hash, sig, room, s, schedule[..n], [turn]);
    var m := Run(hash, sig, room, s, schedule[..n]);
    assert Run(hash, sig, room, m, [turn]) == Run(hash, sig, room, Next(hash, sig, room, m, turn), []);
  }

  // ---------------------------------------------------------------------------
  // Every append was checked before its key was recorded
  // ---------------------------------------------------------------------------

  /** In this turn thread t passes the transaction check with the request. */
  predicate Checks(s: State, turn: Turn, t: nat, req: Request) {
    && turn.thread == t && turn.req == req && PhaseOf(s, t).Idle?
    && (KeyOf(req).Some? ==> KeyOf(req).value !in s.txns)
  }

  lemma OtherPhases(hash: RefHash, sig: SigCheck, room: string, s: State, turn: Turn, t: nat)
    ensures t != turn.thread ==> PhaseOf(Next(hash, sig, room, s, turn), t) == PhaseOf(s, t)
  {
    hide CheckAuth, StateEvents, Insert, AfterEvent, Event, NextDepth, TipIds;
  }

  /** A request comes to be served by passing the check. */
  lemma TurnServes(hash: RefHash, sig: SigCheck, room: string, s: State, turn: Turn, t: nat)
    ensures var s' := Next(hash, sig, room, s, turn);
      || Serving(PhaseOf(s', t)) == None
      || Serving(PhaseOf(s', t)) == Serving(PhaseOf(s, t))
      || Checks(s, turn, t, Serving(PhaseOf(s', t)).value)
  {
    hide CheckAuth, StateEvents, Insert, AfterEvent, Event, NextDepth, TipIds;
    OtherPhases(hash, sig, room, s, turn, t);
  }

  ghost predicate ServedSince(hash: RefHash, sig: SigCheck, room: string, s: State, schedule: seq<Turn>,
                              from: int, to: int, t: nat, req: Request)
    requires 0 <= from && to <= |schedule|
  {
    forall k | from < k <= to :: Serving(PhaseOf(At(hash, sig, room, s, schedule, k), t)) == Some(req)
  }

  lemma {:induction false} ServedWasChecked(
    hash: RefHash, sig: SigCheck, room: string, s: State, schedule: seq<Turn>, i: nat, t: nat, req: Request) returns (j: nat)
    requires i <= |schedule| && AllIdle(s)
    requires Serving(PhaseOf(At(hash, sig, room, s, schedule, i), t)) == Some(req)
    ensures j < i && Checks(At(hash, sig, room, s, schedule, j), schedule[j], t, req)
    ensures ServedSince(hash, sig, room, s, schedule, j, i, t, req)
  {
    hide Next, Run, Checks;
    if i == 0 {
      AtStart(hash, sig, room, s, schedule);
      assert false;
    } else {
      AtStep(hash, sig, room, s, schedule, i - 1);
      TurnServes(hash, sig, room, At(hash, sig, room, s, schedule, i - 1), schedule[i - 1], t);
      if Serving(PhaseOf(At(hash, sig, room, s, schedule, i - 1), t)) == Some(req) {
        j := ServedWasChecked(hash, sig, room, s, schedule, i - 1, t, req);
      } else {
        j := i - 1;
      }
    }
  }

  lemma AtStart(hash: RefHash, sig: SigCheck, room: string, s: State, schedule: seq<Turn>)
    ensures At(hash, sig, room, s, schedule, 0) == s
  {
  }

  lemma TurnKeepsKeys(hash: RefHash, sig: SigCheck, room: string, s: State, turn: Turn, key: Key)
    ensures key in s.txns ==> key in Next(hash, sig, room, s, turn).txns
  {
    hide CheckAuth, StateEvents, Insert, AfterEvent, Event, NextDepth, TipIds;
  }

  lemma {:induction false} KeysStay(hash: RefHash, sig: SigCheck, room: string, s: State, schedule: seq<Turn>, r: nat, j: nat, key: Key)
    requires r <= j <= |schedule| && key in At(hash, sig, room, s, schedule, r).txns
    ensures key in At(hash, sig, room, s, schedule, j).txns
    decreases j
  {
    hide Next, Run, At;
    if r < j {
      KeysStay(hash, sig, room, s, schedule, r, j - 1, key);
      AtStep(hash, sig, room, s, schedule, j - 1);
      TurnKeepsKeys(hash, sig, room, At(hash, sig, room, s, schedule, j - 1), schedule[j - 1], key);
    }
  }

  /** The timeline changes only where an accepted event is written. */
  lemma TurnWrites(hash: RefHash, sig: SigCheck, room: string, s: State, turn: Turn)
    ensures var s', phase := Next(hash, sig, room, s, turn), PhaseOf(s, turn.thread);
      s'.timeline == if phase.Accepted? then Insert(RoomStore.Earlier, phase.event, s.timeline) else s.timeline
  {
    hide CheckAuth, StateEvents, AfterEvent, Event, NextDepth, TipIds;
  }

  /**
   In every interleaving, the turn that writes an event was preceded by its own thread's check of
   the transaction; the thread served that request ever since, and the check came before any moment
   at which the key is recorded.
   */
  lemma AppendWasChecked(hash: RefHash, sig: SigCheck, room: string, s: State, schedule: seq<Turn>, i: nat)
    returns (req: Request, j: nat)
    requires i < |schedule| && AllIdle(s)
    requires At(hash, sig, room, s, schedule, i + 1).timeline != At(hash, sig, room, s, schedule, i).timeline
    ensures j < i && Checks(At(hash, sig, room, s, schedule, j), schedule[j], schedule[i].thread, req)
    ensures ServedSince(hash, sig, room, s, schedule, j, i, schedule[i].thread, req)
    ensures KeyOf(req).Some? ==> forall r | 0 <= r <= |schedule| ::
      KeyOf(req).value in At(hash, sig, room, s, schedule, r).txns ==> j < r
  {
    hide Next, Run, At, ServedSince, Insert;
    var now, t := At(hash, sig, room, s, schedule, i), schedule[i].thread;
    AtStep(hash, sig, room, s, schedule, i);
    TurnWrites(hash, sig, room, now, schedule[i]);
    req := PhaseOf(now, t).req;
    j := ServedWasChecked(hash, sig, room, s, schedule, i, t, req);
    if KeyOf(req).Some? {
      var key := KeyOf(req).value;
      forall r | 0 <= r <= |schedule| && key in At(hash, sig, room, s, schedule, r).txns ensures j < r {
        if r <= j {
          KeysStay(hash, sig, room, s, schedule, r, j, key);
        }
      }
    }
  }

  // ---------------------------------------------------------------------------
  // Counting what happens under a key
  // ---------------------------------------------------------------------------

  /** Under one key: calls, calls that find it unrecorded, events the rules allowed or refused, events written. */
  datatype Tally = Tally(calls: nat, passed: nat, accepted: nat, refused: nat, appended: nat) {
    function Plus(more: Tally): Tally {
      Tally(
        calls + more.calls, passed + more.passed,
        accepted + more.accepted, refused + more.refused, appended + more.appended)
    }
  }

  function One(b: bool): nat {
    if b then 1 else 0
  }

  predicate Allowed(sig: SigCheck, s: State, phase: Phase)
    requires phase.Linked?
  {
    CheckAuth(phase.event, StateEvents(s.state), sig).Ok?
  }

  function Did(sig: SigCheck, s: State, turn: Turn, key: Key): Tally {
    var phase := PhaseOf(s, turn.thread);
    Tally(
      One(phase.Idle? && KeyOf(turn.req) == Some(key)),
      One(phase.Idle? && KeyOf(turn.req) == Some(key) && key !in s.txns),
      One(phase.Linked? && Under(phase, key) && Allowed(sig, s, phase)),
      One(phase.Linked? && Under(phase, key) && !Allowed(sig, s, phase)),
      One(phase.Accepted? && Under(phase, key)))
  }

  function Total(hash: RefHash, sig: SigCheck, room: string, s: State, schedule: seq<Turn>, key: Key): Tally
    decreases |schedule|
  {
    if schedule == [] then Tally(0, 0, 0, 0, 0)
    else
      Did(sig, s, schedule[0], key)
        .Plus(Total(hash, sig, room, Next(hash, sig, room, s, schedule[0]), schedule[1..], key))
  }

  lemma {:induction false} TotalConcat(
    hash: RefHash, sig: SigCheck, room: string, s: State, a: seq<Turn>, b: seq<Turn>, key: Key)
    ensures Total(hash, sig, room, s, a + b, key)
      == Total(hash, sig, room, s, a, key).Plus(Total(hash, sig, room, Run(hash, sig, room, s, a), b, key))
    decreases |a|
  {
    hide Next, Did;
    if a == [] {
      assert a + b == b;
    } else {
      assert (a + b)[0] == a[0] && (a + b)[1..] == a[1..] + b;
      TotalConcat(hash, sig, room, Next(hash, sig, room, s, a[0]), a[1..], b, key);
    }
  }

  /** Sends under the key on their way to the rules, and past them but not yet written. */
  predicate IsWaiting(phase: Phase, key: Key) {
    Under(phase, key) && (phase.Checked? || phase.Locked? || phase.Linked?)
  }

  predicate IsReady(phase: Phase, key: Key) {
    Under(phase, key) && phase.Accepted?
  }

  function Waiting(s: State, key: Key): set<nat> {
    set t | t in s.threads && IsWaiting(s.threads[t], key)
  }

  function Ready(s: State, key: Key): set<nat> {
    set t | t in s.threads && IsReady(s.threads[t], key)
  }

  /** The acting thread's own part of the balance. */
  lemma OwnBalance(hash: RefHash, sig: SigCheck, room: string, s: State, turn: Turn, key: Key)
    ensures var was, now, did := PhaseOf(s, turn.thread), PhaseOf(Next(hash, sig, room, s, turn), turn.thread), Did(sig, s, turn, key);
      && One(IsWaiting(now, key)) + did.accepted + did.refused == One(IsWaiting(was, key)) + did.passed
      && One(IsReady(now, key)) + did.appended == One(IsReady(was, key)) + did.accepted
  {
    hide CheckAuth, StateEvents, Insert, AfterEvent, Event, NextDepth, TipIds;
  }

  /** Sets that differ at one element at most differ in size by that element. */
  lemma SizeStep(a: set<nat>, b: set<nat>, t: nat)
    requires forall u: nat | u != t :: u in a <==> u in b
    ensures |b| + One(t in a) == |a| + One(t in b)
  {
    assert a - {t} == b - {t};
    assert |a - {t}| == |a| - One(t in a) && |b - {t}| == |b| - One(t in b);
  }

  lemma TurnBalance(hash: RefHash, sig: SigCheck, room: string, s: State, turn: Turn, key: Key)
    ensures var s', did := Next(hash, sig, room, s, turn), Did(sig, s, turn, key);
      && |Waiting(s', key)| + did.accepted + did.refused == |Waiting(s, key)| + did.passed
      && |Ready(s', key)| + did.appended == |Ready(s, key)| + did.accepted
  {
    hide Next, Did, Under;
    var s' := Next(hash, sig, room, s, turn);
    forall u: nat | u != turn.thread ensures PhaseOf(s', u) == PhaseOf(s, u) {
      OtherPhases(hash, sig, room, s, turn, u);
    }
    IdleIsNeither(key);
    forall u: nat
      ensures u in Waiting(s, key) <==> IsWaiting(PhaseOf(s, u), key)
      ensures u in Waiting(s', key) <==> IsWaiting(PhaseOf(s', u), key)
      ensures u in Ready(s, key) <==> IsReady(PhaseOf(s, u), key)
      ensures u in Ready(s', key) <==> IsReady(PhaseOf(s', u), key)
    {
    }
    SizeStep(Waiting(s, key), Waiting(s', key), turn.thread);
    SizeStep(Ready(s, key), Ready(s', key), turn.thread);
    OwnBalance(hash, sig, room, s, turn, key);
  }

  lemma IdleIsNeither(key: Key)
    ensures !IsWaiting(Idle, key) && !IsReady(Idle, key)
  {
  }

  /** Over any run: the sends that passed the check are decided or waiting, and those allowed are written or about to be. */
  lemma {:induction false} RunBalance(hash: RefHash, sig: SigCheck, room: string, s: State, schedule: seq<Turn>, key: Key)
    ensures var end, did := Run(hash, sig, room, s, schedule), Total(hash, sig, room, s, schedule, key);
      && |Waiting(end, key)| + did.accepted + did.refused == |Waiting(s, key)| + did.passed
      && |Ready(end, key)| + did.appended == |Ready(s, key)| + did.accepted
    decreases |schedule|
  {
    hide Next, Did, Waiting, Ready;
    if schedule != [] {
      TurnBalance(hash, sig, room, s, schedule[0], key);
      RunBalance(hash, sig, room, Next(hash, sig, room, s, schedule[0]), schedule[1..], key);
    }
  }

  /**
   Every run between two moments with nothing under way: each send that passed the check was either
   refused or wrote one event. So a key is written at most once exactly when all but one of the
   sends that found it unrecorded were refused, and, with none refused, exactly once exactly when
   one send found it unrecorded.
   */
  lemma WrittenOnceIff(hash: RefHash, sig: SigCheck, room: string, s: State, schedule: seq<Turn>, key: Key)
    requires Quiet(s, key) && Quiet(Run(hash, sig, room, s, schedule), key)
    ensures var did := Total(hash, sig, room, s, schedule, key);
      && did.appended == did.accepted && did.appended + did.refused == did.passed
      && (did.appended <= 1 <==> did.passed <= did.refused + 1)
      && (did.refused == 0 ==> (did.appended == 1 <==> did.passed == 1))
  {
    hide Run, Total, Quiet, Waiting, Ready, Settling;
    RunBalance(hash, sig, room, s, schedule, key);
    QuietSets(s, key);
    QuietSets(Run(hash, sig, room, s, schedule), key);
  }

  // ---------------------------------------------------------------------------
  // Once written, recorded
  // ---------------------------------------------------------------------------

  predicate IsWriting(phase: Phase, key: Key) {
    Under(phase, key) && (phase.Stored? || phase.Applied?)
  }

  /** The key is recorded, or a send that has written its event is about to record it. */
  ghost predicate Settling(s: State, key: Key) {
    key in s.txns || exists t: nat :: IsWriting(PhaseOf(s, t), key)
  }

  lemma TurnSettles(hash: RefHash, sig: SigCheck, room: string, s: State, turn: Turn, key: Key)
    ensures Settling(s, key) || Did(sig, s, turn, key).appended > 0 ==> Settling(Next(hash, sig, room, s, turn), key)
  {
    hide CheckAuth, StateEvents, Insert, AfterEvent, Event, NextDepth, TipIds;
    var s' := Next(hash, sig, room, s, turn);
    if key !in s.txns {
      if t: nat :| IsWriting(PhaseOf(s, t), key) {
        OtherPhases(hash, sig, room, s, turn, t);
        assert IsWriting(PhaseOf(s', t), key) || key in s'.txns;
      } else if Did(sig, s, turn, key).appended > 0 {
        assert IsWriting(PhaseOf(s', turn.thread), key);
      }
    }
  }

  lemma {:induction false} RunSettles(hash: RefHash, sig: SigCheck, room: string, s: State, schedule: seq<Turn>, key: Key)
    ensures Settling(s, key) || Total(hash, sig, room, s, schedule, key).appended > 0
      ==> Settling(Run(hash, sig, room, s, schedule), key)
    decreases |schedule|
  {
    hide Next, Did, Settling;
    if schedule != [] {
      TurnSettles(hash, sig, room, s, schedule[0], key);
      RunSettles(hash, sig, room, Next(hash, sig, room, s, schedule[0]), schedule[1..], key);
    }
  }

  lemma QuietSets(s: State, key: Key)
    requires Quiet(s, key)
    ensures Waiting(s, key) == {} && Ready(s, key) == {}
    ensures Settling(s, key) ==> key in s.txns
  {
    forall t | t in s.threads ensures !Under(s.threads[t], key) {
      assert PhaseOf(s, t) == s.threads[t];
    }
  }

  // ---------------------------------------------------------------------------
  // A recorded key is answered, and never sends again
  // ---------------------------------------------------------------------------

  lemma RecordedTurn(hash: RefHash, sig: SigCheck, room: string, s: State, turn: Turn, key: Key)
    requires Quiet(s, key) && key in s.txns
    ensures var s', did := Next(hash, sig, room, s, turn), Did(sig, s, turn, key);
      && Quiet(s', key) && key in s'.txns && s'.txns[key] == s.txns[key]
      && did.accepted == 0 && did.refused == 0 && did.appended == 0
  {
    hide CheckAuth, StateEvents, Insert, AfterEvent, Event, NextDepth, TipIds;
    var s' := Next(hash, sig, room, s, turn);
    assert !Under(PhaseOf(s, turn.thread), key);
    forall t: nat ensures !Under(PhaseOf(s', t), key) {
      OtherPhases(hash, sig, room, s, turn, t);
      assert !Under(PhaseOf(s, t), key);
    }
  }

  /** Whatever is scheduled, a recorded key keeps its event id and no send under it writes again. */
  lemma {:induction false} RecordedStays(hash: RefHash, sig: SigCheck, room: string, s: State, schedule: seq<Turn>, key: Key)
    requires Quiet(s, key) && key in s.txns
    ensures var end := Run(hash, sig, room, s, schedule);
      Quiet(end, key) && key in end.txns && end.txns[key] == s.txns[key]
    ensures Total(hash, sig, room, s, schedule, key).appended == 0
    decreases |schedule|
  {
    hide Next, Did, Quiet;
    if schedule != [] {
      RecordedTurn(hash, sig, room, s, schedule[0], key);
      RecordedStays(hash, sig, room, Next(hash, sig, room, s, schedule[0]), schedule[1..], key);
    }
  }

  lemma {:induction false} PassedAreCalls(hash: RefHash, sig: SigCheck, room: string, s: State, schedule: seq<Turn>, key: Key)
    ensures var did := Total(hash, sig, room, s, schedule, key); did.passed <= did.calls
    decreases |schedule|
  {
    hide Next;
    if schedule != [] {
      PassedAreCalls(hash, sig, room, Next(hash, sig, room, s, schedule[0]), schedule[1..], key);
    }
  }

  /**
   One send under a key, run to its return among any other work, and then anything else: if the
   rules allowed the send, exactly one event is written under the key however often it is retried,
   and every retry is answered with the id the send recorded; if they refused it, what is written is
   what the later sends that find the key unrecorded write.
   */
  lemma RetryAppendsOnce(
    hash: RefHash, sig: SigCheck, room: string, s: State, first: seq<Turn>, later: seq<Turn>, key: Key)
    requires Quiet(s, key) && Total(hash, sig, room, s, first, key).calls == 1
    requires Quiet(Run(hash, sig, room, s, first), key)
    ensures var m := Run(hash, sig, room, s, first);
      var whole := Total(hash, sig, room, s, first + later, key).appended;
      if Total(hash, sig, room, s, first, key).accepted > 0 then
        && whole == 1
        && key in m.txns && key in Run(hash, sig, room, m, later).txns
        && Run(hash, sig, room, m, later).txns[key] == m.txns[key]
      else
        var did, end := Total(hash, sig, room, m, later, key), Run(hash, sig, room, m, later);
        whole + did.refused + |Waiting(end, key)| + |Ready(end, key)| == did.passed
  {
    hide Next, Did, Quiet, Run, Total, Waiting, Ready, Settling;
    var m := Run(hash, sig, room, s, first);
    WrittenOnceIff(hash, sig, room, s, first, key);
    PassedAreCalls(hash, sig, room, s, first, key);
    RunBalance(hash, sig, room, m, later, key);
    TotalConcat(hash, sig, room, s, first, later, key);
    RunSettles(hash, sig, room, s, first, key);
    QuietSets(s, key);
    QuietSets(m, key);
    if Total(hash, sig, room, s, first, key).accepted > 0 {
      RecordedStays(hash, sig, room, m, later, key);
    }
  }

  // ---------------------------------------------------------------------------
  // Sends one after the other
  // ---------------------------------------------------------------------------

  /** No send under the key passes the check while another is on its way. */
  ghost predicate Serial(hash: RefHash, sig: SigCheck, room: string, s: State, schedule: seq<Turn>, key: Key)
    decreases |schedule|
  {
    schedule != [] ==>
      && (Did(sig, s, schedule[0], key).passed > 0 ==> Quiet(s, key))
      && Serial(hash, sig, room, Next(hash, sig, room, s, schedule[0]), schedule[1..], key)
  }

  /** At most one send is on its way, and none once the key is recorded. */
  ghost predicate Single(s: State, key: Key) {
    && (forall t: nat, u: nat | Under(PhaseOf(s, t), key) && Under(PhaseOf(s, u), key) :: t == u)
    && (key in s.txns ==> Quiet(s, key))
  }

  /** A thread comes under the key by passing the check. */
  lemma ComesUnder(hash: RefHash, sig: SigCheck, room: string, s: State, turn: Turn, key: Key, t: nat)
    ensures Under(PhaseOf(Next(hash, sig, room, s, turn), t), key)
      ==> Under(PhaseOf(s, t), key) || (t == turn.thread && Did(sig, s, turn, key).passed > 0)
  {
    hide Next;
    OtherPhases(hash, sig, room, s, turn, t);
    TurnServes(hash, sig, room, s, turn, t);
  }

  /** The key is recorded by the thread that stops serving it. */
  lemma RecordingEnds(hash: RefHash, sig: SigCheck, room: string, s: State, turn: Turn, key: Key)
    ensures var s' := Next(hash, sig, room, s, turn);
      key in s'.txns && key !in s.txns ==> Under(PhaseOf(s, turn.thread), key) && !Under(PhaseOf(s', turn.thread), key)
  {
    hide CheckAuth, StateEvents, Insert, AfterEvent, Event, NextDepth, TipIds;
  }

  lemma SerialTurn(hash: RefHash, sig: SigCheck, room: string, s: State, turn: Turn, key: Key)
    requires Single(s, key) && (Did(sig, s, turn, key).passed > 0 ==> Quiet(s, key))
    ensures Single(Next(hash, sig, room, s, turn), key)
  {
    hide Next, Did, Under;
    var s' := Next(hash, sig, room, s, turn);
    forall t: nat ensures Under(PhaseOf(s', t), key)
      ==> Under(PhaseOf(s, t), key) || (t == turn.thread && Did(sig, s, turn, key).passed > 0)
    {
      ComesUnder(hash, sig, room, s, turn, key, t);
    }
    RecordingEnds(hash, sig, room, s, turn, key);
    PassingNeedsUnrecorded(sig, s, turn, key);
  }

  lemma PassingNeedsUnrecorded(sig: SigCheck, s: State, turn: Turn, key: Key)
    ensures Did(sig, s, turn, key).passed > 0 ==> key !in s.txns && !Under(PhaseOf(s, turn.thread), key)
    ensures Did(sig, s, turn, key).appended > 0 ==> IsReady(PhaseOf(s, turn.thread), key)
    ensures Did(sig, s, turn, key).appended <= 1
  {
  }

  /** The writing turn of the one send on its way is the first to settle the key. */
  lemma WriteSettles(sig: SigCheck, s: State, turn: Turn, key: Key)
    requires Single(s, key)
    ensures Did(sig, s, turn, key).appended > 0 ==> !Settling(s, key)
  {
    hide Did;
    PassingNeedsUnrecorded(sig, s, turn, key);
    if Did(sig, s, turn, key).appended > 0 {
      forall t: nat ensures !IsWriting(PhaseOf(s, t), key) {
        assert Under(PhaseOf(s, turn.thread), key);
      }
    }
  }

  lemma {:induction false} SerialRun(hash: RefHash, sig: SigCheck, room: string, s: State, schedule: seq<Turn>, key: Key)
    requires Single(s, key) && Serial(hash, sig, room, s, schedule, key)
    ensures Total(hash, sig, room, s, schedule, key).appended <= One(!Settling(s, key))
    decreases |schedule|
  {
    hide Next, Did, Single, Settling;
    if schedule != [] {
      var turn := schedule[0];
      SerialTurn(hash, sig, room, s, turn, key);
      WriteSettles(sig, s, turn, key);
      PassingNeedsUnrecorded(sig, s, turn, key);
      TurnSettles(hash, sig, room, s, turn, key);
      SerialRun(hash, sig, room, Next(hash, sig, room, s, turn), schedule[1..], key);
    }
  }

  /** Sends that do not overlap write at most one event, however many there are and whatever else runs between. */
  lemma SerialSendsAppendOnce(hash: RefHash, sig: SigCheck, room: string, s: State, schedule: seq<Turn>, key: Key)
    requires Quiet(s, key) && Serial(hash, sig, room, s, schedule, key)
    ensures Total(hash, sig, room, s, schedule, key).appended <= 1
  {
    hide Next, Did, Total, Serial, Settling;
    SerialRun(hash, sig, room, s, schedule, key);
  }

  // ---------------------------------------------------------------------------
  // The timeline when only sends under one key run
  // ---------------------------------------------------------------------------

  ghost predicate OnlyUnder(s: State, key: Key) {
    forall t: nat :: Serving(PhaseOf(s, t)).Some? ==> Under(PhaseOf(s, t), key)
  }

  ghost predicate OnlyCalls(schedule: seq<Turn>, key: Key) {
    forall turn | turn in schedule :: KeyOf(turn.req) == Some(key)
  }

  lemma TurnGrows(hash: RefHash, sig: SigCheck, room: string, s: State, turn: Turn, key: Key)
    requires OnlyUnder(s, key) && KeyOf(turn.req) == Some(key)
    ensures OnlyUnder(Next(hash, sig, room, s, turn), key)
    ensures |Next(hash, sig, room, s, turn).timeline| == |s.timeline| + Did(sig, s, turn, key).appended
  {
    hide Next, Insert;
    var s' := Next(hash, sig, room, s, turn);
    forall t: nat | Serving(PhaseOf(s', t)).Some? ensures Under(PhaseOf(s', t), key) {
      TurnServes(hash, sig, room, s, turn, t);
      OtherPhases(hash, sig, room, s, turn, t);
    }
    TurnWrites(hash, sig, room, s, turn);
    if PhaseOf(s, turn.thread).Accepted? {
      InsertLength(PhaseOf(s, turn.thread).event, s.timeline);
    }
  }

  lemma {:induction false} RunGrows(hash: RefHash, sig: SigCheck, room: string, s: State, schedule: seq<Turn>, key: Key)
    requires OnlyUnder(s, key) && OnlyCalls(schedule, key)
    ensures |Run(hash, sig, room, s, schedule).timeline| == |s.timeline| + Total(hash, sig, room, s, schedule, key).appended
    decreases |schedule|
  {
    hide Next, Did, OnlyUnder;
    if schedule != [] {
      TurnGrows(hash, sig, room, s, schedule[0], key);
      RunGrows(hash, sig, room, Next(hash, sig, room, s, schedule[0]), schedule[1..], key);
    }
  }

  /** So a send and its retries, one after the other, grow the timeline by exactly one event if the rules allow the first. */
  lemma RetryGrowsTimelineOnce(
    hash: RefHash, sig: SigCheck, room: string, s: State, first: seq<Turn>, later: seq<Turn>, key: Key)
    requires AllIdle(s) && OnlyCalls(first + later, key)
    requires Total(hash, sig, room, s, first, key).calls == 1 && Quiet(Run(hash, sig, room, s, first), key)
    ensures var growth := |Run(hash, sig, room, s, first + later).timeline| - |s.timeline|;
      if Total(hash, sig, room, s, first, key).accepted > 0 then growth == 1
      else
        var m := Run(hash, sig, room, s, first);
        var did, end := Total(hash, sig, room, m, later, key), Run(hash, sig, room, m, later);
        growth + did.refused + |Waiting(end, key)| + |Ready(end, key)| == did.passed
  {
    hide Run, Total, Waiting, Ready;
    assert Quiet(s, key) && OnlyUnder(s, key);
    RunGrows(hash, sig, room, s, first + later, key);
    RetryAppendsOnce(hash, sig, room, s, first, later, key);
  }

  // ---------------------------------------------------------------------------
  // The id a retry is answered with
  // ---------------------------------------------------------------------------

  /** The event says what was asked: a message by its sender, or the target's member event by the actor. */
  ghost predicate Carries(req: Request, p: Pdu) {
    match req
    case Message(sender, kind, content, _) =>
      p.sender == sender && p.kind == kind && p.stateKey == None && p.contentJson == content
    case Membership(actor, target, membership) =>
      p.sender == actor && p.kind == "m.room.member" && p.stateKey == Some(target) && Says(p, "membership", Str(membership))
  }

  lemma OneMember(key: string, value: Json)
    requires WellFormed(value)
    ensures WellFormed(Object([Member(key, value)])) && Height(Object([Member(key, value)])) == 1 + Height(value)
  {
    var members := [Member(key, value)];
    assert MembersHeight(members, 1) == 0;
    assert MembersHeight(members, 0) == Max(MemberHeight(members[0]), MembersHeight(members, 1));
    assert forall m | m in members :: m == members[0];
  }

  lemma SingleFieldSays(p: Pdu, field: string, value: string)
    requires p.contentJson == SingleField(field, value)
    ensures Says(p, field, Str(value))
  {
    hide Print, Parse;
    var j := Object([Member(field, Str(value))]);
    OneMember(field, Str(value));
    ParsePrint(j);
    assert Member(field, Str(value)) in j.members;
  }

  lemma EventCarries(hash: RefHash, room: string, req: Request, ts: nat, depth: nat, prev: seq<EventId>)
    ensures Carries(req, Event(hash, room, req, ts, depth, prev))
    ensures var p := Event(hash, room, req, ts, depth, prev); p.roomId == room && p.originServerTs == ts
  {
    hide Says, SingleField;
    if req.Membership? {
      SingleFieldSays(Event(hash, room, req, ts, depth, prev), "membership", req.membership);
    }
  }

  ghost predicate PhaseIsBacked(timeline: seq<Pdu>, phase: Phase) {
    && (phase.Linked? || phase.Accepted? || phase.Stored? || phase.Applied? ==> Carries(phase.req, phase.event))
    && (phase.Stored? || phase.Applied? ==> phase.event in timeline)
  }

  ghost predicate IdIsBacked(timeline: seq<Pdu>, key: Key, id: EventId) {
    exists p :: p in timeline && p.eventId == id && p.sender == key.0
  }

  /** A recorded id is that of an event its sender wrote. */
  ghost predicate Backed(s: State) {
    && (forall t: nat :: PhaseIsBacked(s.timeline, PhaseOf(s, t)))
    && (forall key | key in s.txns :: IdIsBacked(s.timeline, key, s.txns[key]))
  }

  lemma TimelineKeeps(hash: RefHash, sig: SigCheck, room: string, s: State, turn: Turn)
    ensures forall p | p in s.timeline :: p in Next(hash, sig, room, s, turn).timeline
    ensures var phase := PhaseOf(s, turn.thread);
      phase.Accepted? ==> phase.event in Next(hash, sig, room, s, turn).timeline
  {
    hide Next, Insert;
    TurnWrites(hash, sig, room, s, turn);
    if PhaseOf(s, turn.thread).Accepted? {
      InsertMembers(PhaseOf(s, turn.thread).event, s.timeline);
    }
  }

  lemma OwnPhaseBacked(hash: RefHash, sig: SigCheck, room: string, s: State, turn: Turn)
    requires PhaseIsBacked(s.timeline, PhaseOf(s, turn.thread))
    ensures var s' := Next(hash, sig, room, s, turn); PhaseIsBacked(s'.timeline, PhaseOf(s', turn.thread))
  {
    hide CheckAuth, StateEvents, Insert, AfterEvent, NextDepth, TipIds, Event, Carries;
    TimelineKeeps(hash, sig, room, s, turn);
    var phase := PhaseOf(s, turn.thread);
    if phase.Locked? {
      EventCarries(hash, room, phase.req, turn.ts, NextDepth(s.timeline), TipIds(s.timeline));
    }
  }

  lemma PhasesStayBacked(hash: RefHash, sig: SigCheck, room: string, s: State, turn: Turn)
    requires forall t: nat :: PhaseIsBacked(s.timeline, PhaseOf(s, t))
    ensures var s' := Next(hash, sig, room, s, turn);
      forall t: nat :: PhaseIsBacked(s'.timeline, PhaseOf(s', t))
  {
    hide Next;
    var s' := Next(hash, sig, room, s, turn);
    TimelineKeeps(hash, sig, room, s, turn);
    OwnPhaseBacked(hash, sig, room, s, turn);
    forall t: nat ensures PhaseIsBacked(s'.timeline, PhaseOf(s', t)) {
      OtherPhases(hash, sig, room, s, turn, t);
      assert PhaseIsBacked(s.timeline, PhaseOf(s, t));
    }
  }

  lemma TurnRecords(hash: RefHash, sig: SigCheck, room: string, s: State, turn: Turn)
    ensures var s', phase := Next(hash, sig, room, s, turn), PhaseOf(s, turn.thread);
      s'.txns == if phase.Applied? && phase.req.Message? then s.txns[(phase.req.sender, phase.req.txnId) := phase.event.eventId] else s.txns
  {
    hide CheckAuth, StateEvents, Insert, AfterEvent, Event, NextDepth, TipIds;
  }

  lemma TurnStaysBacked(hash: RefHash, sig: SigCheck, room: string, s: State, turn: Turn)
    requires Backed(s)
    ensures Backed(Next(hash, sig, room, s, turn))
  {
    hide Next;
    var s' := Next(hash, sig, room, s, turn);
    var phase := PhaseOf(s, turn.thread);
    PhasesStayBacked(hash, sig, room, s, turn);
    TimelineKeeps(hash, sig, room, s, turn);
    TurnRecords(hash, sig, room, s, turn);
    assert PhaseIsBacked(s.timeline, phase);
    forall key | key in s'.txns ensures IdIsBacked(s'.timeline, key, s'.txns[key]) {
      if phase.Applied? && phase.req.Message? && key == (phase.req.sender, phase.req.txnId) {
        assert phase.event in s'.timeline;
      } else {
        var p :| p in s.timeline && p.eventId == s.txns[key] && p.sender == key.0;
        assert p in s'.timeline;
      }
    }
  }

  /** In every run of a created room, every id a retry is answered with names an event that its sender wrote. */
  lemma {:induction false} RunStaysBacked(hash: RefHash, sig: SigCheck, room: string, s: State, schedule: seq<Turn>)
    requires Backed(s)
    ensures Backed(Run(hash, sig, room, s, schedule))
    decreases |schedule|
  {
    hide Next, Backed;
    if schedule != [] {
      TurnStaysBacked(hash, sig, room, s, schedule[0]);
      RunStaysBacked(hash, sig, room, Next(hash, sig, room, s, schedule[0]), schedule[1..]);
    }
  }

  lemma AnswersAreEvents(hash: RefHash, sig: SigCheck, room: string, first: seq<Pdu>, schedule: seq<Turn>, key: Key)
    ensures var s := Run(hash, sig, room, Opened(first), schedule);
      key in s.txns ==> IdIsBacked(s.timeline, key, s.txns[key])
  {
    hide Run;
    RunStaysBacked(hash, sig, room, Opened(first), schedule);
  }

  // ---------------------------------------------------------------------------
  // Two sends checked before either is recorded
  // ---------------------------------------------------------------------------

  function Repeat(turn: Turn, n: nat): seq<Turn> {
    if n == 0 then [] else [turn] + Repeat(turn, n - 1)
  }

  lemma RunRepeat(hash: RefHash, sig: SigCheck, room: string, s: State, turn: Turn, n: nat)
    ensures Run(hash, sig, room, s, Repeat(turn, n))
      == if n == 0 then s else Run(hash, sig, room, Next(hash, sig, room, s, turn), Repeat(turn, n - 1))
  {
    hide Next;
    if n > 0 {
      assert Repeat(turn, n)[1..] == Repeat(turn, n - 1);
    }
  }

  /** The event a send builds on the room as it stands. */
  function Built(hash: RefHash, room: string, s: State, req: Request, ts: nat): Pdu {
    Event(hash, room, req, ts, NextDepth(s.timeline), TipIds(s.timeline))
  }

  /** What a whole send leaves, from the lock to its return. */
  function Sent(hash: RefHash, room: string, s: State, turn: Turn): State
    requires turn.req.Message?
  {
    var p := Built(hash, room, s, turn.req, turn.ts);
    s.(threads := s.threads[turn.thread := Idle],
       timeline := Insert(RoomStore.Earlier, p, s.timeline),
       txns := s.txns[(turn.req.sender, turn.req.txnId) := p.eventId])
  }

  lemma SendReads(hash: RefHash, sig: SigCheck, room: string, s: State, turn: Turn)
    requires s.lock == None && PhaseOf(s, turn.thread) == Checked(turn.req)
    requires CheckAuth(Built(hash, room, s, turn.req, turn.ts), StateEvents(s.state), sig).Ok?
    ensures Run(hash, sig, room, s, Repeat(turn, 7))
      == Run(hash, sig, room, To(s, turn.thread, Accepted(turn.req, Built(hash, room, s, turn.req, turn.ts))).(lock := Some(turn.thread)), Repeat(turn, 4))
  {
    hide CheckAuth, StateEvents, Insert, AfterEvent, Event, NextDepth, TipIds, Run, Repeat;
    var t, p := turn.thread, Built(hash, room, s, turn.req, turn.ts);
    var s1 := To(s, t, Locked(turn.req)).(lock := Some(t));
    var s2 := To(s1, t, Linked(turn.req, p));
    var s3 := To(s2, t, Accepted(turn.req, p));
    RunRepeat(hash, sig, room, s, turn, 7);
    RunRepeat(hash, sig, room, s1, turn, 6);
    RunRepeat(hash, sig, room, s2, turn, 5);
    assert s3.threads == s.threads[t := Accepted(turn.req, p)];
  }

  lemma SendWrites(hash: RefHash, sig: SigCheck, room: string, s: State, turn: Turn, p: Pdu)
    requires turn.req.Message? && PhaseOf(s, turn.thread) == Accepted(turn.req, p) && p.stateKey == None
    ensures Run(hash, sig, room, s, Repeat(turn, 4))
      == s.(threads := s.threads[turn.thread := Idle], lock := None,
            timeline := Insert(RoomStore.Earlier, p, s.timeline),
            txns := s.txns[(turn.req.sender, turn.req.txnId) := p.eventId])
  {
    hide CheckAuth, StateEvents, Insert, Event, NextDepth, TipIds, Run, Repeat;
    var t := turn.thread;
    var s1 := To(s, t, Stored(turn.req, p)).(timeline := Insert(RoomStore.Earlier, p, s.timeline));
    var s2 := To(s1, t, Applied(turn.req, p));
    var s3 := To(s2, t, Recorded).(txns := s.txns[(turn.req.sender, turn.req.txnId) := p.eventId]);
    var s4 := To(s3, t, Idle).(lock := None);
    RunRepeat(hash, sig, room, s, turn, 4);
    RunRepeat(hash, sig, room, s1, turn, 3);
    RunRepeat(hash, sig, room, s2, turn, 2);
    RunRepeat(hash, sig, room, s3, turn, 1);
    RunRepeat(hash, sig, room, s4, turn, 0);
    assert s4.threads == s.threads[t := Idle];
  }

  lemma WholeSend(hash: RefHash, sig: SigCheck, room: string, s: State, turn: Turn)
    requires s.lock == None && turn.req.Message? && PhaseOf(s, turn.thread) == Checked(turn.req)
    requires CheckAuth(Built(hash, room, s, turn.req, turn.ts), StateEvents(s.state), sig).Ok?
    ensures Run(hash, sig, room, s, Repeat(turn, 7)) == Sent(hash, room, s, turn)
  {
    hide CheckAuth, StateEvents, Insert, NextDepth, TipIds, Run, Repeat;
    var t, p := turn.thread, Built(hash, room, s, turn.req, turn.ts);
    var s3 := To(s, t, Accepted(turn.req, p)).(lock := Some(t));
    SendReads(hash, sig, room, s, turn);
    SendWrites(hash, sig, room, s3, turn, p);
    assert s3.threads[t := Idle] == s.threads[t := Idle];
  }

  /** The rules look at an event's kind, sender, state key and content only. */
  predicate Alike(p: Pdu, q: Pdu) {
    p.kind == q.kind && p.sender == q.sender && p.stateKey == q.stateKey && p.contentJson == q.contentJson
  }

  lemma SameSignatures(p: Pdu, q: Pdu, view: AuthView, sig: SigCheck)
    requires Alike(p, q)
    ensures ThirdPartyInviteIsValid(p, view, sig) == ThirdPartyInviteIsValid(q, view, sig)
  {
    hide Print, Parse;
    assert SignedBlock(p) == SignedBlock(q);
  }

  lemma SameMemberVerdict(p: Pdu, q: Pdu, view: AuthView, sig: SigCheck)
    requires Alike(p, q)
    ensures CheckMemberAuth(p, view, sig) == CheckMemberAuth(q, view, sig)
  {
    hide ThirdPartyInviteIsValid, Parse, UserLevel, CreatorOf, FirstValue;
    SameSignatures(p, q, view, sig);
    assert MembershipOf(p) == MembershipOf(q);
    assert RestrictedJoinAuthorised(p, view) == RestrictedJoinAuthorised(q, view);
  }

  lemma SameVerdict(p: Pdu, q: Pdu, state: seq<Pdu>, sig: SigCheck)
    requires Alike(p, q)
    ensures CheckAuth(p, state, sig) == CheckAuth(q, state, sig)
  {
    hide ViewOf, CheckMemberAuth, Parse, UserLevel, CreatorOf, FirstValue;
    SameMemberVerdict(p, q, ViewOf(state), sig);
    assert RedactionTargetsOwnDomain(p) == RedactionTargetsOwnDomain(q);
  }

  // ---------------------------------------------------------------------------
  // One request, in every interleaving
  // ---------------------------------------------------------------------------

  /** The event carries the request, a message. */
  ghost predicate IsOf(req: Request, p: Pdu) {
    req.Message? && Carries(req, p)
  }

  /** Whoever is sending sends the request, and the room's state is as it was. */
  ghost predicate Steady(s: State, req: Request, state: RoomState) {
    && s.state == state
    && forall t: nat :: SendsOnly(PhaseOf(s, t), req)
  }

  ghost predicate SendsOnly(phase: Phase, req: Request) {
    && (Serving(phase).Some? ==> Serving(phase).value == req)
    && (phase.Linked? || phase.Accepted? || phase.Stored? || phase.Applied? ==> IsOf(req, phase.event))
  }

  lemma SteadyTurn(hash: RefHash, sig: SigCheck, room: string, s: State, turn: Turn, state: RoomState)
    requires Steady(s, turn.req, state) && turn.req.Message?
    ensures Steady(Next(hash, sig, room, s, turn), turn.req, state)
  {
    hide CheckAuth, StateEvents, Insert, NextDepth, TipIds;
    var s' := Next(hash, sig, room, s, turn);
    assert SendsOnly(PhaseOf(s, turn.thread), turn.req);
    assert SendsOnly(PhaseOf(s', turn.thread), turn.req);
    forall t: nat ensures SendsOnly(PhaseOf(s', t), turn.req) {
      OtherPhases(hash, sig, room, s, turn, t);
      assert SendsOnly(PhaseOf(s, t), turn.req);
    }
  }

  lemma SteadyVerdict(sig: SigCheck, s: State, turn: Turn, key: Key, p: Pdu)
    requires Steady(s, turn.req, s.state) && IsOf(turn.req, p) && CheckAuth(p, StateEvents(s.state), sig).Ok?
    ensures Did(sig, s, turn, key).refused == 0
  {
    hide CheckAuth, StateEvents;
    var phase := PhaseOf(s, turn.thread);
    assert SendsOnly(phase, turn.req);
    if phase.Linked? {
      SameVerdict(p, phase.event, StateEvents(s.state), sig);
    }
  }

  ghost predicate AllSend(schedule: seq<Turn>, req: Request) {
    forall turn | turn in schedule :: turn.req == req
  }

  lemma {:induction false} SteadyRun(
    hash: RefHash, sig: SigCheck, room: string, s: State, schedule: seq<Turn>, req: Request, key: Key, p: Pdu)
    requires Steady(s, req, s.state) && AllSend(schedule, req)
    requires IsOf(req, p) && CheckAuth(p, StateEvents(s.state), sig).Ok?
    ensures Total(hash, sig, room, s, schedule, key).refused == 0
    decreases |schedule|
  {
    hide Next, Did, Steady, CheckAuth, StateEvents, IsOf;
    if schedule != [] {
      assert schedule[0].req == req;
      MessageOnly(req, p);
      SteadyState(s, req, s.state);
      SteadyVerdict(sig, s, schedule[0], key, p);
      SteadyTurn(hash, sig, room, s, schedule[0], s.state);
      SteadyState(Next(hash, sig, room, s, schedule[0]), req, s.state);
      SteadyRun(hash, sig, room, Next(hash, sig, room, s, schedule[0]), schedule[1..], req, key, p);
    }
  }

  lemma MessageOnly(req: Request, p: Pdu)
    requires IsOf(req, p)
    ensures req.Message?
  {
  }

  lemma SteadyState(s: State, req: Request, state: RoomState)
    requires Steady(s, req, state)
    ensures s.state == state
  {
  }

  /**
   Any threads sending one request that the rules allow, in any interleaving that lets them all
   return: the timeline grows by exactly the number of sends that found the key unrecorded, so the
   send is written once exactly when one did.
   */
  lemma SendsGrowByPassed(hash: RefHash, sig: SigCheck, room: string, s: State, schedule: seq<Turn>, req: Request, ts: nat)
    requires AllIdle(s) && req.Message? && AllSend(schedule, req)
    requires CheckAuth(Built(hash, room, s, req, ts), StateEvents(s.state), sig).Ok?
    requires Quiet(Run(hash, sig, room, s, schedule), KeyOf(req).value)
    ensures var key, growth := KeyOf(req).value, |Run(hash, sig, room, s, schedule).timeline| - |s.timeline|;
      && growth == Total(hash, sig, room, s, schedule, key).appended
      && growth == Total(hash, sig, room, s, schedule, key).passed
  {
    hide Run, Total, CheckAuth, StateEvents, NextDepth, TipIds, Quiet;
    var key := KeyOf(req).value;
    IdleIsQuiet(s, key);
    RunGrows(hash, sig, room, s, schedule, key);
    SteadyRun(hash, sig, room, s, schedule, req, key, Built(hash, room, s, req, ts));
    WrittenOnceIff(hash, sig, room, s, schedule, key);
  }

  lemma IdleIsQuiet(s: State, key: Key)
    requires AllIdle(s)
    ensures Quiet(s, key) && OnlyUnder(s, key) && forall req :: Steady(s, req, s.state)
  {
  }

  /** Both threads pass the check, then one sends, then the other. */
  function Race(a: Turn, b: Turn): seq<Turn> {
    [a, b] + Repeat(a, 7) + Repeat(b, 7)
  }

  lemma BothChecked(hash: RefHash, sig: SigCheck, room: string, s: State, a: Turn, b: Turn)
    requires a.thread != b.thread && PhaseOf(s, a.thread).Idle? && PhaseOf(s, b.thread).Idle?
    requires KeyOf(a.req).Some? && KeyOf(a.req) == KeyOf(b.req) && KeyOf(a.req).value !in s.txns
    ensures Run(hash, sig, room, s, [a, b]) == To(To(s, a.thread, Checked(a.req)), b.thread, Checked(b.req))
  {
    hide CheckAuth, StateEvents, Insert, Event, AfterEvent;
    assert [a, b][1..] == [b] && [b][1..] == [];
    var s1 := Next(hash, sig, room, s, a);
    assert Run(hash, sig, room, s, [a, b]) == Run(hash, sig, room, s1, [b]);
    assert Run(hash, sig, room, s1, [b]) == Run(hash, sig, room, Next(hash, sig, room, s1, b), []);
  }

  /**
   Two sends of one request on a quiet room, both checked before either has the lock: if the rules
   allow the request, both are written and both return, under the one key.
   */
  lemma RacingSendsBothAppend(hash: RefHash, sig: SigCheck, room: string, s: State, a: Turn, b: Turn)
    requires a.thread != b.thread && PhaseOf(s, a.thread).Idle? && PhaseOf(s, b.thread).Idle? && s.lock == None
    requires a.req == b.req && a.req.Message? && KeyOf(a.req).value !in s.txns
    requires Linear(s.timeline) && CheckAuth(Built(hash, room, s, a.req, a.ts), StateEvents(s.state), sig).Ok?
    ensures var end := Run(hash, sig, room, s, Race(a, b));
      && |end.timeline| == |s.timeline| + 2 && s.timeline <= end.timeline
      && Carries(a.req, end.timeline[|s.timeline|]) && Carries(a.req, end.timeline[|s.timeline| + 1])
      && PhaseOf(end, a.thread).Idle? && PhaseOf(end, b.thread).Idle? && end.lock == None
      && forall t: nat :: PhaseOf(end, t).Idle? || PhaseOf(end, t) == PhaseOf(s, t)
  {
    hide CheckAuth, StateEvents, Insert, Run, Repeat, NextDepth, TipIds, Linear;
    var s1 := To(To(s, a.thread, Checked(a.req)), b.thread, Checked(b.req));
    var s2 := Sent(hash, room, s1, a);
    var p, q := Built(hash, room, s1, a.req, a.ts), Built(hash, room, s2, b.req, b.ts);
    BothChecked(hash, sig, room, s, a, b);
    WholeSend(hash, sig, room, s1, a);
    SameVerdict(p, q, StateEvents(s.state), sig);
    WholeSend(hash, sig, room, s2, b);
    RunConcat(hash, sig, room, s, [a, b] + Repeat(a, 7), Repeat(b, 7));
    RunConcat(hash, sig, room, s, [a, b], Repeat(a, 7));
    LinearGrows(s.timeline, p);
    LinearGrows(s.timeline + [p], q);
  }

  lemma BothPassed(hash: RefHash, sig: SigCheck, room: string, s: State, a: Turn, b: Turn)
    requires a.thread != b.thread && PhaseOf(s, a.thread).Idle? && PhaseOf(s, b.thread).Idle?
    requires a.req == b.req && a.req.Message? && KeyOf(a.req).value !in s.txns
    ensures Total(hash, sig, room, s, [a, b], KeyOf(a.req).value).passed == 2
  {
    hide CheckAuth, StateEvents, Insert, Event, AfterEvent;
    var key := KeyOf(a.req).value;
    var s1 := Next(hash, sig, room, s, a);
    assert [a, b][1..] == [b] && [b][1..] == [];
    assert Total(hash, sig, room, Next(hash, sig, room, s1, b), [], key).passed == 0;
    assert Total(hash, sig, room, s1, [b], key).passed == 1;
  }

  /**
   However two sends of one allowed request go on once both have been checked, and whoever else sends
   it meanwhile: when all have returned, at least two events have been written under the one key.
   */
  lemma BothCheckedBothAppend(
    hash: RefHash, sig: SigCheck, room: string, s: State, a: Turn, b: Turn, rest: seq<Turn>)
    requires AllIdle(s) && a.thread != b.thread && a.req.Message? && AllSend([a, b] + rest, a.req)
    requires KeyOf(a.req).value !in s.txns && CheckAuth(Built(hash, room, s, a.req, a.ts), StateEvents(s.state), sig).Ok?
    requires Quiet(Run(hash, sig, room, s, [a, b] + rest), KeyOf(a.req).value)
    ensures |Run(hash, sig, room, s, [a, b] + rest).timeline| >= |s.timeline| + 2
  {
    hide Run, Total, CheckAuth, StateEvents, Quiet, NextDepth, TipIds;
    assert ([a, b] + rest)[0] == a && ([a, b] + rest)[1] == b;
    var key := KeyOf(a.req).value;
    SendsGrowByPassed(hash, sig, room, s, [a, b] + rest, a.req, a.ts);
    BothPassed(hash, sig, room, s, a, b);
    TotalConcat(hash, sig, room, s, [a, b], rest, key);
  }

  /** Of the race: two sends pass the check, none is refused, two events are written. */
  lemma RaceIsCounted(hash: RefHash, sig: SigCheck, room: string, s: State, a: Turn, b: Turn)
    requires AllIdle(s) && s.lock == None && a.thread != b.thread
    requires a.req == b.req && a.req.Message? && KeyOf(a.req).value !in s.txns
    requires Linear(s.timeline) && CheckAuth(Built(hash, room, s, a.req, a.ts), StateEvents(s.state), sig).Ok?
    ensures var did := Total(hash, sig, room, s, Race(a, b), KeyOf(a.req).value);
      did.passed == 2 && did.refused == 0 && did.appended == 2
  {
    hide Run, Total, CheckAuth, StateEvents, NextDepth, TipIds, Repeat, Linear;
    var key := KeyOf(a.req).value;
    RacingSendsBothAppend(hash, sig, room, s, a, b);
    RaceSends(a, b);
    SendsGrowByPassed(hash, sig, room, s, Race(a, b), a.req, a.ts);
    WrittenOnceIff(hash, sig, room, s, Race(a, b), key);
  }

  lemma RaceSends(a: Turn, b: Turn)
    requires a.req == b.req
    ensures AllSend(Race(a, b), a.req)
  {
    hide Repeat;
    RepeatSends(a, 7);
    RepeatSends(b, 7);
  }

  lemma {:induction false} RepeatSends(turn: Turn, n: nat)
    ensures AllSend(Repeat(turn, n), turn.req)
  {
    if n > 0 {
      RepeatSends(turn, n - 1);
    }
  }
}
