/**
 The events the gateway reflects into rooms: in every run each call id is given once, and what is
 reflected under it runs the one course its call may run.
 */
module GatewayCourses {
  import opened Audit
  import opened Columns
  import opened Gateway
  import opened GatewayLedger
  import opened Orders
  import opened Text

  /** The events that the outcome of a step carries. */
  function Emitted(g: State, step: Step): seq<ReflectedEvent> {
    match step
    case Mediate(call, limits, actionClass, t, run) => EventsIn(MediationOutcome(g, call, limits, actionClass, t, run))
    case Resolve(requestId, approved, decider, tick, run) =>
      (match ResolutionOutcome(g, requestId, approved, decider, run)
       case None => []
       case Some(outcome) => EventsIn(outcome))
    case _ => []
  }

  function EventsIn(outcome: Outcome): seq<ReflectedEvent> {
    match outcome
    case Executed(events) => events
    case AwaitingApproval(_, event) => [event]
    case Denied(_, receipts) => receipts
  }

  function Reflected(digest: Digest, w: World, steps: seq<Step>): seq<ReflectedEvent>
    decreases |steps|
  {
    if steps == [] then [] else Emitted(w.state, steps[0]) + Reflected(digest, After(digest, w, steps[0]), steps[1..])
  }

  /** The events under one call id. */
  function Under(events: seq<ReflectedEvent>, id: string): seq<ReflectedEvent> {
    if events == [] then []
    else
      var n := |events| - 1;
      Under(events[..n], id) + if events[n].callId == id then [events[n]] else []
  }

  lemma {:induction false} UnderJoins(a: seq<ReflectedEvent>, b: seq<ReflectedEvent>, id: string)
    ensures Under(a + b, id) == Under(a, id) + Under(b, id)
    decreases |b|
  {
    if b == [] {
      assert a + b == a;
    } else {
      var n := |b| - 1;
      assert (a + b)[..|a + b| - 1] == a + b[..n];
      UnderJoins(a, b[..n], id);
    }
  }

  // ---------------------------------------------------------------------------
  // Courses
  // ---------------------------------------------------------------------------

  /** Reflected, and waiting for a human: the call alone. */
  predicate Waiting(course: seq<ReflectedEvent>, call: ToolCall) {
    |course| == 1 && course[0].CallEvent? && course[0].tool == call.tool && course[0].args == call.args
  }

  /** Over: the call and its result; the call, an approval and the result; or the call and a denial. */
  predicate Over(course: seq<ReflectedEvent>) {
    && |course| >= 2 && course[0].CallEvent?
    && var last := course[|course| - 1];
       if last.ResultEvent? then
         && last.tool == course[0].tool
         && (|course| == 2 || (|course| == 3 && course[1].ApprovalEvent? && course[1].approved))
       else |course| == 2 && last.ApprovalEvent? && !last.approved
  }

  ghost predicate IsPendingCall(pending: seq<PendingApproval>, id: string) {
    exists i :: 0 <= i < |pending| && pending[i].callId == id
  }

  /** The id given to the call numbered `k`. */
  ghost predicate Names(id: string, k: nat) {
    id == "call-" + Decimal(k)
  }

  lemma NamesAreDistinct(id: string, k: nat, l: nat)
    requires Names(id, k) && Names(id, l)
    ensures k == l
  {
    hide Decimal;
    assert id[5..] == Decimal(k) && id[5..] == Decimal(l);
    DecimalIsInjective(k, l);
  }

  ghost predicate Given(id: string, next: nat) {
    exists k: nat :: k < next && Names(id, k)
  }

  ghost predicate QueueIsNamed(pending: seq<PendingApproval>, next: nat) {
    && (forall i | 0 <= i < |pending| :: Given(pending[i].callId, next))
    && (forall i, j | 0 <= i < j < |pending| :: pending[i].callId != pending[j].callId)
  }

  ghost predicate OnCourse(pending: seq<PendingApproval>, next: nat, events: seq<ReflectedEvent>, id: string) {
    && (forall i | 0 <= i < |pending| && pending[i].callId == id :: Waiting(Under(events, id), pending[i].call))
    && (!IsPendingCall(pending, id) ==> if Given(id, next) then Over(Under(events, id)) else Under(events, id) == [])
  }

  ghost predicate AllOnCourse(pending: seq<PendingApproval>, next: nat, events: seq<ReflectedEvent>) {
    QueueIsNamed(pending, next) && forall id :: OnCourse(pending, next, events, id)
  }

  // ---------------------------------------------------------------------------
  // What a step adds
  // ---------------------------------------------------------------------------

  datatype Added =
    | Nothing
    | RanAtOnce(id: string, call: ToolCall, run: ToolOutcome)
    | Queued(entry: PendingApproval)
    | Settled(index: nat, decider: string, approved: bool, run: ToolOutcome)

  ghost predicate Adds(g: State, g': State, events: seq<ReflectedEvent>, a: Added) {
    match a
    case Nothing => g'.pending == g.pending && g'.nextCallSeq == g.nextCallSeq && events == []
    case RanAtOnce(id, call, run) =>
      && g'.pending == g.pending && g'.nextCallSeq == g.nextCallSeq + 1 && Names(id, g.nextCallSeq)
      && events == [CallEvent(id, call.tool, call.args), ResultEvent(id, call.tool, run.ok, run.summary)]
    case Queued(entry) =>
      && g'.pending == g.pending + [entry] && g'.nextCallSeq == g.nextCallSeq + 1 && Names(entry.callId, g.nextCallSeq)
      && entry.requestId == g.nextRequestId
      && events == [CallEvent(entry.callId, entry.call.tool, entry.call.args)]
    case Settled(i, decider, approved, run) =>
      && i < |g.pending| && g'.nextCallSeq == g.nextCallSeq
      && g'.pending == g.pending[..i] + g.pending[i + 1..]
      && var id, receipt := g.pending[i].callId, ApprovalEvent(g.pending[i].callId, decider, approved);
         events == if approved then [receipt, ResultEvent(id, g.pending[i].call.tool, run.ok, run.summary)] else [receipt]
  }

  /** Which of these a step does. */
  function AddedBy(g: State, step: Step): Added {
    match step
    case Mediate(call, limits, actionClass, t, run) =>
      if Checked(g, call.agent, limits, actionClass, t).1 != Decision.Admitted then Nothing
      else if actionClass == Auto then RanAtOnce("call-" + Decimal(g.nextCallSeq), call, run)
      else Queued(PendingApproval(g.nextRequestId, "call-" + Decimal(g.nextCallSeq), call))
    case Resolve(requestId, approved, decider, tick, run) =>
      (match Position(g.pending, requestId)
       case None => Nothing
       case Some(i) => Settled(i, decider, approved, run))
    case _ => Nothing
  }

  lemma RanKeepsCalls(digest: Digest, g: State, call: ToolCall, run: ToolOutcome, now: nat)
    ensures var g' := Ran(digest, g, call, run, now); g'.pending == g.pending && g'.nextCallSeq == g.nextCallSeq
  {
  }

  lemma RefusedKeepsCalls(digest: Digest, g: State, actor: string, event: string, series: string)
    ensures var g' := Refused(digest, g, actor, event, series); g'.pending == g.pending && g'.nextCallSeq == g.nextCallSeq
  {
  }

  /** Of an admitted call, the caller is told what was done with it; of a refused one, why. */
  lemma MediateAdds(digest: Digest, g: State, step: Step)
    requires step.Mediate?
    ensures Adds(g, Next(digest, g, step), Emitted(g, step), AddedBy(g, step))
  {
    hide Checked, Ran, Appended, DailyEntry, Decimal, Refused;
    CheckedKeeps(g, step.call.agent, step.limits, step.actionClass, step.ticks);
    var (g1, decision) := Checked(g, step.call.agent, step.limits, step.actionClass, step.ticks);
    if decision == Decision.Admitted {
      if step.actionClass == Auto {
        var g2 := Admission(g1, step.call.agent, step.ticks);
        var g3 := Audited(digest, g2.(nextCallSeq := g2.nextCallSeq + 1), step.call.agent, "auto_allowed: " + step.call.tool);
        RanKeepsCalls(digest, g3, step.call, step.run, step.ticks.noteTokens);
      }
    } else {
      var call := step.call;
      RefusedKeepsCalls(digest, g1, call.agent, "denied_by_scope: " + call.tool + " in " + call.room, "denied_scope");
      RefusedKeepsCalls(digest, g1, call.agent, "rate_limited: " + call.tool, "rate_limited");
      RefusedKeepsCalls(digest, g1, call.agent, "daily_budget_exceeded: " + call.tool, "budget_exceeded");
      RefusedKeepsCalls(digest, g1, call.agent, "token_budget_exceeded: " + call.tool, "token_budget_exceeded");
    }
  }

  lemma ResolveAdds(digest: Digest, g: State, step: Step)
    requires step.Resolve?
    ensures Adds(g, Next(digest, g, step), Emitted(g, step), AddedBy(g, step))
  {
    hide Ran, Appended, Refused;
    var at := Position(g.pending, step.requestId);
    if at.Some? {
      var call := g.pending[at.value].call;
      var g1 := g.(pending := Without(g.pending, at.value));
      if step.approved {
        var g2 := Audited(digest, g1, call.agent, "approved_by " + step.decider + ": " + call.tool);
        RanKeepsCalls(digest, g2, call, step.run, step.tick);
      } else {
        RefusedKeepsCalls(digest, g1, call.agent, "denied_by " + step.decider + ": " + call.tool, "denied_human");
      }
    }
  }

  lemma StepAdds(digest: Digest, g: State, step: Step)
    ensures Adds(g, Next(digest, g, step), Emitted(g, step), AddedBy(g, step))
  {
    hide Adds, AddedBy, Emitted, Mediated, Resolved;
    if step.Mediate? {
      MediateAdds(digest, g, step);
    } else if step.Resolve? {
      ResolveAdds(digest, g, step);
    } else {
      OtherAdds(digest, g, step);
    }
  }

  lemma OtherAdds(digest: Digest, g: State, step: Step)
    requires step.Refuse? || step.Note?
    ensures Adds(g, Next(digest, g, step), Emitted(g, step), AddedBy(g, step))
  {
    hide Appended;
  }

  // ---------------------------------------------------------------------------
  // Every step keeps every call on its course
  // ---------------------------------------------------------------------------

  lemma GivenNext(id: string, next: nat)
    ensures Given(id, next + 1) <==> Given(id, next) || Names(id, next)
  {
    hide Names;
    if Names(id, next) {
      assert next < next + 1 && Names(id, next);
    }
  }

  lemma NextIsNew(id: string, next: nat)
    requires Names(id, next)
    ensures !Given(id, next)
  {
    hide Names;
    if k: nat :| k < next && Names(id, k) {
      NamesAreDistinct(id, k, next);
    }
  }

  lemma UnderOne(e: ReflectedEvent, id: string)
    ensures Under([e], id) == if e.callId == id then [e] else []
  {
    assert [e][..0] == [];
  }

  lemma UnderTwo(e: ReflectedEvent, f: ReflectedEvent, id: string)
    requires e.callId == f.callId
    ensures Under([e, f], id) == if e.callId == id then [e, f] else []
  {
    assert [e, f] == [e] + [f];
    UnderJoins([e], [f], id);
    UnderOne(e, id);
    UnderOne(f, id);
  }

  lemma RunKeepsCourse(g: State, g': State, events: seq<ReflectedEvent>, more: seq<ReflectedEvent>, a: Added, id: string)
    requires Adds(g, g', more, a) && a.RanAtOnce? && AllOnCourse(g.pending, g.nextCallSeq, events)
    ensures OnCourse(g'.pending, g'.nextCallSeq, events + more, id)
  {
    hide Given, Names, Under;
    UnderJoins(events, more, id);
    UnderTwo(more[0], more[1], id);
    GivenNext(id, g.nextCallSeq);
    NextIsNew(a.id, g.nextCallSeq);
    assert OnCourse(g.pending, g.nextCallSeq, events, id);
    if id != a.id {
      OneName(id, a.id, g.nextCallSeq);
    }
  }

  lemma OneName(id: string, other: string, k: nat)
    requires id != other && Names(other, k)
    ensures !Names(id, k)
  {
  }

  lemma QueueKeepsCourse(g: State, g': State, events: seq<ReflectedEvent>, more: seq<ReflectedEvent>, a: Added, id: string)
    requires Adds(g, g', more, a) && a.Queued? && AllOnCourse(g.pending, g.nextCallSeq, events)
    ensures OnCourse(g'.pending, g'.nextCallSeq, events + more, id)
  {
    hide Given, Names, Under;
    UnderJoins(events, more, id);
    UnderOne(more[0], id);
    GivenNext(id, g.nextCallSeq);
    NextIsNew(a.entry.callId, g.nextCallSeq);
    assert OnCourse(g.pending, g.nextCallSeq, events, id);
    PendingCallGrows(g.pending, a.entry, id);
    if id != a.entry.callId {
      OneName(id, a.entry.callId, g.nextCallSeq);
    }
  }

  lemma PendingCallGrows(pending: seq<PendingApproval>, entry: PendingApproval, id: string)
    ensures IsPendingCall(pending + [entry], id) <==> IsPendingCall(pending, id) || entry.callId == id
  {
    if IsPendingCall(pending, id) {
      var i :| 0 <= i < |pending| && pending[i].callId == id;
      assert (pending + [entry])[i].callId == id;
    }
    assert (pending + [entry])[|pending|] == entry;
  }

  lemma PendingCallShrinks(pending: seq<PendingApproval>, i: nat, id: string)
    requires i < |pending| && forall j, k | 0 <= j < k < |pending| :: pending[j].callId != pending[k].callId
    ensures var rest := pending[..i] + pending[i + 1..];
      && (IsPendingCall(rest, id) <==> IsPendingCall(pending, id) && id != pending[i].callId)
      && (forall p | p in rest :: p in pending)
      && (forall j, k | 0 <= j < k < |rest| :: rest[j].callId != rest[k].callId)
  {
    var rest := pending[..i] + pending[i + 1..];
    assert forall k | 0 <= k < |rest| :: rest[k] == pending[if k < i then k else k + 1];
    if IsPendingCall(pending, id) && id != pending[i].callId {
      var k :| 0 <= k < |pending| && pending[k].callId == id;
      assert rest[if k < i then k else k - 1].callId == id;
    }
  }

  lemma SettleKeepsCourse(g: State, g': State, events: seq<ReflectedEvent>, more: seq<ReflectedEvent>, a: Added, id: string)
    requires Adds(g, g', more, a) && a.Settled? && AllOnCourse(g.pending, g.nextCallSeq, events)
    ensures OnCourse(g'.pending, g'.nextCallSeq, events + more, id)
  {
    hide Given, Names, Under;
    var entry := g.pending[a.index];
    UnderJoins(events, more, id);
    if |more| == 1 {
      UnderOne(more[0], id);
    } else {
      UnderTwo(more[0], more[1], id);
    }
    assert OnCourse(g.pending, g.nextCallSeq, events, id);
    assert OnCourse(g.pending, g.nextCallSeq, events, entry.callId);
    assert IsPendingCall(g.pending, entry.callId);
    PendingCallShrinks(g.pending, a.index, id);
    assert forall p | p in g.pending && p.callId == id :: Waiting(Under(events, id), p.call);
  }

  lemma StepKeepsQueueNamed(g: State, g': State, more: seq<ReflectedEvent>, a: Added)
    requires Adds(g, g', more, a) && QueueIsNamed(g.pending, g.nextCallSeq)
    ensures QueueIsNamed(g'.pending, g'.nextCallSeq)
  {
    hide Given, Names;
    forall id ensures Given(id, g.nextCallSeq + 1) <==> Given(id, g.nextCallSeq) || Names(id, g.nextCallSeq) {
      GivenNext(id, g.nextCallSeq);
    }
    if a.Queued? {
      NextIsNew(a.entry.callId, g.nextCallSeq);
    } else if a.Settled? {
      PendingCallShrinks(g.pending, a.index, "");
      forall k | 0 <= k < |g'.pending| ensures Given(g'.pending[k].callId, g'.nextCallSeq) {
        assert g'.pending[k] in g.pending;
      }
    }
  }

  lemma StepKeepsCourse(g: State, g': State, events: seq<ReflectedEvent>, more: seq<ReflectedEvent>, a: Added)
    requires Adds(g, g', more, a) && AllOnCourse(g.pending, g.nextCallSeq, events)
    ensures AllOnCourse(g'.pending, g'.nextCallSeq, events + more)
  {
    hide OnCourse, Adds, QueueIsNamed;
    StepKeepsQueueNamed(g, g', more, a);
    forall id ensures OnCourse(g'.pending, g'.nextCallSeq, events + more, id) {
      match a {
        case Nothing => NothingKeepsCourse(g, g', events, more, a, id);
        case RanAtOnce(_, _, _) => RunKeepsCourse(g, g', events, more, a, id);
        case Queued(_) => QueueKeepsCourse(g, g', events, more, a, id);
        case Settled(_, _, _, _) => SettleKeepsCourse(g, g', events, more, a, id);
      }
    }
  }

  lemma NothingKeepsCourse(g: State, g': State, events: seq<ReflectedEvent>, more: seq<ReflectedEvent>, a: Added, id: string)
    requires Adds(g, g', more, a) && a.Nothing? && AllOnCourse(g.pending, g.nextCallSeq, events)
    ensures OnCourse(g'.pending, g'.nextCallSeq, events + more, id)
  {
    assert events + more == events;
    assert OnCourse(g.pending, g.nextCallSeq, events, id);
  }

  lemma {:induction false} RunsKeepCourse(digest: Digest, w: World, events: seq<ReflectedEvent>, steps: seq<Step>)
    requires AllOnCourse(w.state.pending, w.state.nextCallSeq, events)
    ensures var g := Run(digest, w, steps).state;
      AllOnCourse(g.pending, g.nextCallSeq, events + Reflected(digest, w, steps))
    decreases |steps|
  {
    hide AllOnCourse, Next, Emitted, AddedBy, Adds, Happenings;
    if steps == [] {
      assert events + [] == events;
    } else {
      var w1, more := After(digest, w, steps[0]), Emitted(w.state, steps[0]);
      StepAdds(digest, w.state, steps[0]);
      StepKeepsCourse(w.state, w1.state, events, more, AddedBy(w.state, steps[0]));
      RunsKeepCourse(digest, w1, events + more, steps[1..]);
      var rest := Reflected(digest, w1, steps[1..]);
      assert events + more + rest == events + (more + rest);
    }
  }

  lemma BeginsOnCourse()
    ensures AllOnCourse(INITIAL.pending, INITIAL.nextCallSeq, [])
  {
  }

  /**
   In every run the calls are named "call-0", "call-1" and so on, each name once. Under the name of a call
   that waits for a human only the call has been reflected; any other named call has run its course,
   with one result or one denial; and nothing is reflected under another name.
   */
  lemma EachCallRunsItsCourse(digest: Digest, steps: seq<Step>, id: string)
    ensures var g := Run(digest, BEGINNING, steps).state;
      var course := Under(Reflected(digest, BEGINNING, steps), id);
      && (forall i | 0 <= i < |g.pending| && g.pending[i].callId == id :: Waiting(course, g.pending[i].call))
      && (!IsPendingCall(g.pending, id) && Given(id, g.nextCallSeq) ==> Over(course))
      && (!Given(id, g.nextCallSeq) ==> course == [])
  {
    hide Run, Reflected, Waiting, Under, Over, Given;
    BeginsOnCourse();
    RunsKeepCourse(digest, BEGINNING, [], steps);
    var g, events := Run(digest, BEGINNING, steps).state, Reflected(digest, BEGINNING, steps);
    assert [] + events == events;
    assert OnCourse(g.pending, g.nextCallSeq, events, id);
  }

  /** A caller told to wait is given the request under which its call is queued. */
  lemma AwaitedIsQueued(digest: Digest, g: State, step: Step, requestId: nat, event: ReflectedEvent)
    requires step.Mediate?
    requires MediationOutcome(g, step.call, step.limits, step.actionClass, step.ticks, step.run) == AwaitingApproval(requestId, event)
    ensures Next(digest, g, step).pending == g.pending + [PendingApproval(requestId, event.callId, step.call)]
  {
    hide Checked;
    StepAdds(digest, g, step);
  }

  /** A refused caller is told the check that failed, with its limit and no events. */
  lemma RefusedIsTold(g: State, call: ToolCall, limits: Limits, actionClass: ActionClass, t: Ticks, run: ToolOutcome)
    requires Checked(g, call.agent, limits, actionClass, t).1 != Decision.Admitted
    ensures var told := MediationOutcome(g, call, limits, actionClass, t, run);
      && told.Denied? && told.receipts == []
      && match Checked(g, call.agent, limits, actionClass, t).1
         case OutOfScope => told.reason == call.tool + " is not permitted in " + call.room
         case RateLimited =>
           told.reason == "rate limit of " + Decimal(limits.perMinute) + "/min exceeded for " + call.agent
         case OverCalls =>
           told.reason == "daily budget of " + Decimal(limits.callsPerDay) + " calls exceeded for " + call.agent
         case _ =>
           told.reason == "daily token budget of " + Decimal(limits.tokensPerDay) + " exceeded for " + call.agent
  {
    hide Checked, Decimal;
  }
}
