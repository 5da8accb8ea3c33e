/**
 Conservation in every run of the gateway: admitted calls, outcomes, pending approvals and
 settlements always add up, and each approval settles one request, once.
 */
module GatewayLedger {
  import opened Audit
  import opened Columns
  import opened Gateway
  import opened Orders
  import opened Text

  // ---------------------------------------------------------------------------
  // How a step moves the desk: the queue, the next request id and the history
  // ---------------------------------------------------------------------------

  datatype Desk = Desk(pending: seq<PendingApproval>, next: nat, history: seq<Happening>)

  function DeskOf(w: World): Desk {
    Desk(w.state.pending, w.state.nextRequestId, w.history)
  }

  predicate Settles(h: Happening) {
    h.ReviewApproved? || h.ReviewDenied?
  }

  datatype Move =
    | Stay
    | RunNow(admitted: Happening, execution: Happening)
    | Enqueue(admitted: Happening, entry: PendingApproval)
    | Settle(index: nat, settlement: Happening)

  predicate Allowed(d: Desk, m: Move) {
    match m
    case Stay => true
    case RunNow(a, x) => a.CallAdmitted? && x.AutoExecuted?
    case Enqueue(a, entry) => a.CallAdmitted? && entry.requestId == d.next
    case Settle(i, h) =>
      i < |d.pending| && Settles(h) && h.requestId == d.pending[i].requestId && h.call == d.pending[i].call
  }

  function Moved(d: Desk, m: Move): Desk
    requires Allowed(d, m)
  {
    match m
    case Stay => d
    case RunNow(a, x) => Desk(d.pending, d.next, (d.history + [a]) + [x])
    case Enqueue(a, entry) =>
      Desk(d.pending + [entry], d.next + 1, (d.history + [a]) + [ReviewQueued(d.next, entry.call)])
    case Settle(i, h) => Desk(Without(d.pending, i), d.next, d.history + [h])
  }

  function MoveOf(g: State, step: Step): Move {
    match step
    case Mediate(call, limits, actionClass, t, run) =>
      if Checked(g, call.agent, limits, actionClass, t).1 != Decision.Admitted then Stay
      else if actionClass == Auto then
        RunNow(CallAdmitted(call.agent, t.note, t.noteDaily), AutoExecuted(call, t.noteTokens, run.tokens))
      else
        Enqueue(CallAdmitted(call.agent, t.note, t.noteDaily),
                PendingApproval(g.nextRequestId, CallId(g.nextCallSeq), call))
    case Resolve(requestId, approved, decider, tick, run) =>
      (match Position(g.pending, requestId)
       case None => Stay
       case Some(i) =>
         Settle(i, if approved then ReviewApproved(requestId, g.pending[i].call, tick, run.tokens)
                   else ReviewDenied(requestId, g.pending[i].call)))
    case _ => Stay
  }

  /** The checks touch nothing but the call times and the daily usage. */
  lemma CheckedKeeps(g: State, agent: string, limits: Limits, actionClass: ActionClass, t: Ticks)
    ensures var g' := Checked(g, agent, limits, actionClass, t).0;
      g' == g.(recent := g'.recent, usage := g'.usage)
  {
  }

  lemma TwoMore<T>(h: seq<T>, a: T, b: T)
    ensures h + [a, b] == (h + [a]) + [b]
  {
  }

  /** Every step makes the move its inputs and the queue call for, and no other change to the desk. */
  lemma StepMoves(digest: Digest, w: World, step: Step)
    ensures Allowed(DeskOf(w), MoveOf(w.state, step))
    ensures DeskOf(After(digest, w, step)) == Moved(DeskOf(w), MoveOf(w.state, step))
  {
    hide Appended, Checked, Bumped, Ran;
    if step.Mediate? {
      MediateMoves(digest, w, step);
    } else if step.Resolve? {
      ResolveMoves(digest, w, step);
    }
  }

  /** An execution changes the log, the usage and the metrics. */
  lemma RanKeeps(digest: Digest, g: State, call: ToolCall, run: ToolOutcome, now: nat)
    ensures var g' := Ran(digest, g, call, run, now);
      && g'.pending == g.pending && g'.nextRequestId == g.nextRequestId && g'.recent == g.recent
      && g'.outcomes == Bumped(g.outcomes, "executed", 1) && g'.gauge == Some(|g.pending|)
  {
  }

  lemma MediateMoves(digest: Digest, w: World, step: Step)
    requires step.Mediate?
    ensures DeskOf(After(digest, w, step)) == Moved(DeskOf(w), MoveOf(w.state, step))
  {
    hide Checked, Ran, Appended, Bumped, DailyEntry;
    var call, t := step.call, step.ticks;
    CheckedKeeps(w.state, call.agent, step.limits, step.actionClass, t);
    var (g1, decision) := Checked(w.state, call.agent, step.limits, step.actionClass, t);
    if decision == Decision.Admitted {
      var a := CallAdmitted(call.agent, t.note, t.noteDaily);
      var g2 := Admission(g1, call.agent, t);
      if step.actionClass == Auto {
        var g3 := g2.(nextCallSeq := g2.nextCallSeq + 1);
        RanKeeps(digest, Audited(digest, g3, call.agent, "auto_allowed: " + call.tool), call, step.run, t.noteTokens);
        TwoMore(w.history, a, AutoExecuted(call, t.noteTokens, step.run.tokens));
      } else {
        TwoMore(w.history, a, ReviewQueued(w.state.nextRequestId, call));
      }
    }
  }

  lemma ResolveMoves(digest: Digest, w: World, step: Step)
    requires step.Resolve?
    ensures DeskOf(After(digest, w, step)) == Moved(DeskOf(w), MoveOf(w.state, step))
  {
    hide Ran, Appended, Bumped;
    var g := w.state;
    if step.approved && Position(g.pending, step.requestId).Some? {
      var i := Position(g.pending, step.requestId).value;
      var call := g.pending[i].call;
      var g1 := g.(pending := Without(g.pending, i));
      var g2 := Audited(digest, g1, call.agent, "approved_by " + step.decider + ": " + call.tool);
      RanKeeps(digest, g2, call, step.run, step.tick);
    }
  }

  // ---------------------------------------------------------------------------
  // Requests: ids are fresh, and each is settled at most once, by its own approval
  // ---------------------------------------------------------------------------

  predicate IsPending(pending: seq<PendingApproval>, id: int) {
    exists i | 0 <= i < |pending| :: pending[i].requestId == id
  }

  predicate QueuedAt(h: seq<Happening>, i: int, id: int) {
    0 <= i < |h| && h[i].ReviewQueued? && h[i].requestId == id
  }

  predicate SettledAt(h: seq<Happening>, i: int, id: int) {
    0 <= i < |h| && Settles(h[i]) && h[i].requestId == id
  }

  ghost predicate IsSettled(h: seq<Happening>, id: int) {
    exists j :: SettledAt(h, j, id)
  }

  /** A call was queued under `id` before position `j`. */
  ghost predicate WasQueued(h: seq<Happening>, j: int, id: int, call: ToolCall) {
    exists i :: i < j && QueuedAt(h, i, id) && h[i].call == call
  }

  /** Request ids are never reused. */
  ghost predicate QueuedOnce(h: seq<Happening>) {
    forall i, j, id :: QueuedAt(h, i, id) && QueuedAt(h, j, id) ==> i == j
  }

  /** No request is settled twice. */
  ghost predicate SettledOnce(h: seq<Happening>) {
    forall i, j, id :: SettledAt(h, i, id) && SettledAt(h, j, id) ==> i == j
  }

  /** Every settlement is of a call queued before it under the same id: nothing else was executed. */
  ghost predicate SettlesWhatWasQueued(h: seq<Happening>) {
    forall j, id | SettledAt(h, j, id) :: WasQueued(h, j, id, h[j].call)
  }

  ghost predicate IdsBelow(d: Desk) {
    && (forall i, id :: QueuedAt(d.history, i, id) ==> id < d.next)
    && (forall i, j | 0 <= i < j < |d.pending| :: d.pending[i].requestId < d.pending[j].requestId)
  }

  /** What is pending was queued, with that call, and is not settled. */
  ghost predicate PendingIsQueued(d: Desk) {
    forall k | 0 <= k < |d.pending| ::
      && WasQueued(d.history, |d.history|, d.pending[k].requestId, d.pending[k].call)
      && !IsSettled(d.history, d.pending[k].requestId)
  }

  /** What was queued is pending or settled. */
  ghost predicate NothingLost(d: Desk) {
    forall i, id | QueuedAt(d.history, i, id) :: IsPending(d.pending, id) || IsSettled(d.history, id)
  }

  ghost predicate Orderly(d: Desk) {
    && QueuedOnce(d.history)
    && SettledOnce(d.history)
    && SettlesWhatWasQueued(d.history)
    && IdsBelow(d)
    && PendingIsQueued(d)
    && NothingLost(d)
  }

  /** One more happening: what was queued and settled before, and what it adds. */
  lemma Grows(h: seq<Happening>, x: Happening)
    ensures forall i, id ::
      QueuedAt(h + [x], i, id) <==> QueuedAt(h, i, id) || (i == |h| && x.ReviewQueued? && x.requestId == id)
    ensures forall j, id ::
      SettledAt(h + [x], j, id) <==> SettledAt(h, j, id) || (j == |h| && Settles(x) && x.requestId == id)
    ensures forall id :: IsSettled(h + [x], id) <==> IsSettled(h, id) || (Settles(x) && x.requestId == id)
    ensures forall j, id, call | j <= |h| && WasQueued(h, j, id, call) :: WasQueued(h + [x], j, id, call)
    ensures forall id, call | WasQueued(h, |h|, id, call) :: WasQueued(h + [x], |h| + 1, id, call)
    ensures x.ReviewQueued? ==> WasQueued(h + [x], |h| + 1, x.requestId, x.call)
  {
    var h' := h + [x];
    forall i ensures 0 <= i < |h| ==> h'[i] == h[i] {}
    assert h'[|h|] == x;
    if Settles(x) {
      assert SettledAt(h', |h|, x.requestId);
    }
    forall id ensures IsSettled(h', id) <==> IsSettled(h, id) || (Settles(x) && x.requestId == id) {
      if IsSettled(h', id) {
        var j :| SettledAt(h', j, id);
        assert SettledAt(h, j, id) || j == |h|;
      }
      if IsSettled(h, id) {
        var j :| SettledAt(h, j, id);
        assert SettledAt(h', j, id);
      }
    }
    forall j, id, call | j <= |h| && WasQueued(h, j, id, call)
      ensures WasQueued(h', j, id, call) && WasQueued(h', |h| + 1, id, call)
    {
      var i :| i < j && QueuedAt(h, i, id) && h[i].call == call;
      assert QueuedAt(h', i, id);
    }
    if x.ReviewQueued? {
      assert QueuedAt(h', |h|, x.requestId);
    }
  }

  /** A happening about no request changes nothing for requests. */
  lemma OtherKeepsOrder(d: Desk, h: Happening)
    requires Orderly(d) && !h.ReviewQueued? && !Settles(h)
    ensures Orderly(d.(history := d.history + [h]))
  {
    hide QueuedAt, SettledAt, IsSettled, WasQueued;
    Grows(d.history, h);
    SettlementsStay(d.history, h);
  }

  lemma SettlementsStay(h: seq<Happening>, x: Happening)
    requires SettlesWhatWasQueued(h)
    requires Settles(x) ==> WasQueued(h, |h|, x.requestId, x.call)
    ensures SettlesWhatWasQueued(h + [x])
  {
    hide WasQueued;
    Grows(h, x);
    forall j, id | SettledAt(h + [x], j, id) ensures WasQueued(h + [x], j, id, (h + [x])[j].call) {
      if j < |h| {
        assert SettledAt(h, j, id);
      }
    }
  }

  lemma QueueKeepsOrder(d: Desk, entry: PendingApproval)
    requires Orderly(d) && entry.requestId == d.next
    ensures Orderly(Desk(d.pending + [entry], d.next + 1, d.history + [ReviewQueued(d.next, entry.call)]))
  {
    var x := ReviewQueued(d.next, entry.call);
    var pending' := d.pending + [entry];
    Grows(d.history, x);
    SettlementsStay(d.history, x);
    PendingBelow(d);
    QueuedBeforeSettled(d);
    PendingGrows(d.pending, entry);
    hide QueuedAt, SettledAt, IsSettled, WasQueued, IsPending;
  }

  lemma PendingGrows(pending: seq<PendingApproval>, entry: PendingApproval)
    ensures forall id :: IsPending(pending + [entry], id) <==> IsPending(pending, id) || id == entry.requestId
  {
    var pending' := pending + [entry];
    assert pending'[|pending|] == entry;
    forall id | IsPending(pending, id) ensures IsPending(pending', id) {
      var i :| 0 <= i < |pending| && pending[i].requestId == id;
      assert pending'[i].requestId == id;
    }
  }

  lemma PendingBelow(d: Desk)
    requires Orderly(d)
    ensures forall k | 0 <= k < |d.pending| :: d.pending[k].requestId < d.next
  {
  }

  lemma QueuedBeforeSettled(d: Desk)
    requires Orderly(d)
    ensures !IsSettled(d.history, d.next)
  {
  }

  lemma PendingShrinks(pending: seq<PendingApproval>, i: nat)
    requires i < |pending| && forall j, k | 0 <= j < k < |pending| :: pending[j].requestId < pending[k].requestId
    ensures var pending' := Without(pending, i);
      && (forall k | 0 <= k < |pending'| :: pending'[k] in pending && pending'[k].requestId != pending[i].requestId)
      && (forall j, k | 0 <= j < k < |pending'| :: pending'[j].requestId < pending'[k].requestId)
      && (forall id :: IsPending(pending', id) <==> IsPending(pending, id) && id != pending[i].requestId)
  {
    var pending' := Without(pending, i);
    forall k | 0 <= k < |pending'|
      ensures pending'[k] == pending[if k < i then k else k + 1] && pending'[k].requestId != pending[i].requestId
    {
    }
    forall id | IsPending(pending, id) && id != pending[i].requestId ensures IsPending(pending', id) {
      var k :| 0 <= k < |pending| && pending[k].requestId == id;
      assert pending'[if k < i then k else k - 1].requestId == id;
    }
  }

  lemma SettleKeepsOrder(d: Desk, i: nat, h: Happening)
    requires Orderly(d) && Allowed(d, Settle(i, h))
    ensures Orderly(Moved(d, Settle(i, h)))
  {
    hide QueuedAt, SettledAt, IsSettled, WasQueued, IsPending, Without;
    Grows(d.history, h);
    SettlementsStay(d.history, h);
    PendingShrinks(d.pending, i);
    SettlementIsNew(d, i, h);
  }

  lemma SettlementIsNew(d: Desk, i: nat, h: Happening)
    requires Orderly(d) && Allowed(d, Settle(i, h))
    ensures forall j :: !SettledAt(d.history, j, h.requestId)
    ensures (d.history + [h])[|d.history|] == h
  {
  }

  lemma MoveKeepsOrder(d: Desk, m: Move)
    requires Orderly(d) && Allowed(d, m)
    ensures Orderly(Moved(d, m))
  {
    hide Orderly, Without;
    match m
    case Stay =>
    case RunNow(a, x) =>
      OtherKeepsOrder(d, a);
      OtherKeepsOrder(d.(history := d.history + [a]), x);
    case Enqueue(a, entry) =>
      OtherKeepsOrder(d, a);
      QueueKeepsOrder(d.(history := d.history + [a]), entry);
    case Settle(i, h) =>
      SettleKeepsOrder(d, i, h);
  }

  // ---------------------------------------------------------------------------
  // Counters and the gauge
  // ---------------------------------------------------------------------------

  datatype Totals = Totals(admitted: nat, auto: nat, queued: nat, approved: nat, denied: nat)

  function Added(t: Totals, h: Happening): Totals {
    match h
    case CallAdmitted(_, _, _) => t.(admitted := t.admitted + 1)
    case AutoExecuted(_, _, _) => t.(auto := t.auto + 1)
    case ReviewQueued(_, _) => t.(queued := t.queued + 1)
    case ReviewApproved(_, _, _, _) => t.(approved := t.approved + 1)
    case ReviewDenied(_, _) => t.(denied := t.denied + 1)
  }

  /** How often each thing happened. */
  function Tally(h: seq<Happening>): Totals {
    if h == [] then Totals(0, 0, 0, 0, 0) else Added(Tally(h[..|h| - 1]), h[|h| - 1])
  }

  lemma TallySnoc(h: seq<Happening>, x: Happening)
    ensures Tally(h + [x]) == Added(Tally(h), x)
  {
    assert (h + [x])[..|h|] == h;
  }

  datatype Figures = Figures(executed: nat, review: nat, deniedHuman: nat, gauge: Option<nat>)

  function FiguresOf(g: State): Figures {
    Figures(Counter(g.outcomes, "executed"), Counter(g.outcomes, "review"), Counter(g.outcomes, "denied_human"), g.gauge)
  }

  /** What a move adds to the counters. */
  function Figured(f: Figures, m: Move): Figures {
    match m
    case Stay => f
    case RunNow(_, _) => f.(executed := f.executed + 1)
    case Enqueue(_, _) => f.(review := f.review + 1)
    case Settle(_, h) =>
      if h.ReviewApproved? then f.(executed := f.executed + 1) else f.(deniedHuman := f.deniedHuman + 1)
  }

  lemma RecordedFigures(g: State, series: string)
    ensures var f, f' := FiguresOf(g), FiguresOf(Recorded(g, series));
      && f'.executed == f.executed + (if series == "executed" then 1 else 0)
      && f'.review == f.review + (if series == "review" then 1 else 0)
      && f'.deniedHuman == f.deniedHuman + (if series == "denied_human" then 1 else 0)
      && f'.gauge == Some(|g.pending|)
  {
  }

  /** Refusals leave the three counters alone. */
  lemma RefusedFigures(digest: Digest, g: State, actor: string, event: string, series: string)
    requires series !in ["executed", "review", "denied_human"]
    ensures FiguresOf(Refused(digest, g, actor, event, series)) == FiguresOf(g).(gauge := Some(|g.pending|))
  {
    hide Recorded, Appended;
    RecordedFigures(Audited(digest, g, actor, event), series);
  }

  lemma StepFigures(digest: Digest, g: State, step: Step)
    ensures var g' := Next(digest, g, step);
      && FiguresOf(g') == Figured(FiguresOf(g), MoveOf(g, step)).(gauge := g'.gauge)
      && (g'.gauge == Some(|g'.pending|) || (g'.gauge == g.gauge && g'.pending == g.pending))
  {
    hide FiguresOf, Refused, Checked, Ran, Audited;
    match step
    case Mediate(call, limits, actionClass, t, run) =>
      MediateFigures(digest, g, step);
    case Resolve(requestId, approved, decider, tick, run) =>
      ResolveFigures(digest, g, step);
    case Refuse(why) =>
      RefuseFigures(digest, g, why);
    case Note(actor, event) =>
      AuditedFigures(digest, g, actor, event);
  }

  lemma AuditedFigures(digest: Digest, g: State, actor: string, event: string)
    ensures FiguresOf(Audited(digest, g, actor, event)) == FiguresOf(g)
    ensures FiguresOf(g).gauge == g.gauge
    ensures Audited(digest, g, actor, event).pending == g.pending
    ensures Audited(digest, g, actor, event).gauge == g.gauge
  {
  }

  lemma RefuseFigures(digest: Digest, g: State, why: Refusal)
    ensures var g' := RefusedEarly(digest, g, why);
      FiguresOf(g') == FiguresOf(g).(gauge := g'.gauge) && g'.gauge == Some(|g'.pending|)
  {
    hide FiguresOf, Appended;
    match why
    case UnknownAgent(agent) => RefusedFigures(digest, g, agent, "unknown_agent: " + agent, "unknown_agent");
    case UnmanagedAgent(agent) => RefusedFigures(digest, g, agent, "unmanaged_agent: " + agent, "unmanaged");
    case PolicyDenied(call) =>
      RefusedFigures(digest, g, call.agent, "policy_denied: " + call.tool + " in " + call.room, "denied_policy");
  }

  lemma RanFigures(digest: Digest, g: State, call: ToolCall, run: ToolOutcome, now: nat)
    ensures var g' := Ran(digest, g, call, run, now);
      && FiguresOf(g') == FiguresOf(g).(executed := FiguresOf(g).executed + 1, gauge := Some(|g.pending|))
      && g'.pending == g.pending
  {
    hide Recorded, Appended, ExecutedText;
    var g1 := Audited(digest, TokensNoted(g, call.agent, run.tokens, now), call.agent, ExecutedText(call.tool, run));
    RecordedFigures(g1.(tokensMetered := Bumped(g1.tokensMetered, call.agent, run.tokens)), "executed");
    assert Ran(digest, g, call, run, now).pending == g.pending by {
      RanKeeps(digest, g, call, run, now);
    }
  }

  lemma MediateFigures(digest: Digest, g: State, step: Step)
    requires step.Mediate?
    ensures var g' := Next(digest, g, step);
      && FiguresOf(g') == Figured(FiguresOf(g), MoveOf(g, step)).(gauge := g'.gauge)
      && g'.gauge == Some(|g'.pending|)
  {
    hide Checked, Ran, Appended, Recorded, DailyEntry;
    var call, t := step.call, step.ticks;
    CheckedKeeps(g, call.agent, step.limits, step.actionClass, t);
    var (g1, decision) := Checked(g, call.agent, step.limits, step.actionClass, t);
    match decision
    case Admitted =>
      var g2 := Admission(g1, call.agent, t);
      if step.actionClass == Auto {
        var g3 := g2.(nextCallSeq := g2.nextCallSeq + 1);
        RanFigures(digest, Audited(digest, g3, call.agent, "auto_allowed: " + call.tool), call, step.run, t.noteTokens);
        RanKeeps(digest, Audited(digest, g3, call.agent, "auto_allowed: " + call.tool), call, step.run, t.noteTokens);
      } else {
        var g3 := g2.(nextCallSeq := g2.nextCallSeq + 1, nextRequestId := g2.nextRequestId + 1);
        var g4 := Audited(digest, g3, call.agent, "approval_requested: " + call.tool);
        var g5 := g4.(pending := g4.pending + [PendingApproval(g2.nextRequestId, CallId(g2.nextCallSeq), call)]);
        RecordedFigures(g5, "review");
        RecordedKeeps(g5, "review");
      }
    case _ =>
      RefusedInMediation(digest, g, step);
  }

  lemma RecordedKeeps(g: State, series: string)
    ensures Recorded(g, series).pending == g.pending && Recorded(g, series).nextRequestId == g.nextRequestId
  {
  }

  lemma RefusedInMediation(digest: Digest, g: State, step: Step)
    requires step.Mediate?
    requires Checked(g, step.call.agent, step.limits, step.actionClass, step.ticks).1 != Decision.Admitted
    ensures var g' := Next(digest, g, step);
      FiguresOf(g') == FiguresOf(g).(gauge := g'.gauge) && g'.gauge == Some(|g'.pending|)
  {
    hide Checked, Appended, Recorded;
    var call, t := step.call, step.ticks;
    CheckedKeeps(g, call.agent, step.limits, step.actionClass, t);
    var (g1, decision) := Checked(g, call.agent, step.limits, step.actionClass, t);
    var (event, series) := match decision
      case OutOfScope => ("denied_by_scope: " + call.tool + " in " + call.room, "denied_scope")
      case RateLimited => ("rate_limited: " + call.tool, "rate_limited")
      case OverCalls => ("daily_budget_exceeded: " + call.tool, "budget_exceeded")
      case _ => ("token_budget_exceeded: " + call.tool, "token_budget_exceeded");
    RefusedFigures(digest, g1, call.agent, event, series);
    RecordedKeeps(Audited(digest, g1, call.agent, event), series);
  }

  lemma ResolveFigures(digest: Digest, g: State, step: Step)
    requires step.Resolve?
    ensures var g' := Next(digest, g, step);
      && FiguresOf(g') == Figured(FiguresOf(g), MoveOf(g, step)).(gauge := g'.gauge)
      && (g'.gauge == Some(|g'.pending|) || (g'.gauge == g.gauge && g'.pending == g.pending))
  {
    hide Ran, Appended, Recorded;
    match Position(g.pending, step.requestId)
    case None =>
    case Some(i) =>
      var call := g.pending[i].call;
      var g1 := g.(pending := Without(g.pending, i));
      if step.approved {
        var g2 := Audited(digest, g1, call.agent, "approved_by " + step.decider + ": " + call.tool);
        RanFigures(digest, g2, call, step.run, step.tick);
      } else {
        var g2 := Audited(digest, g1, call.agent, "denied_by " + step.decider + ": " + call.tool);
        RecordedFigures(g2, "denied_human");
        RecordedKeeps(g2, "denied_human");
      }
  }

  /** The books: counters, gauge and queue against what happened. */
  ghost predicate Balanced(w: World) {
    var t, f, n := Tally(w.history), FiguresOf(w.state), |w.state.pending|;
    && t.admitted == t.auto + t.queued
    && f.executed == t.auto + t.approved
    && f.review == t.queued
    && f.deniedHuman == t.denied
    && t.queued == n + t.approved + t.denied
    && f.gauge == if f.gauge == None && n == 0 then None else Some(n)
  }

  lemma GaugeFigure(g: State)
    ensures FiguresOf(g).gauge == g.gauge
  {
  }

  lemma StepKeepsBalance(digest: Digest, w: World, step: Step)
    requires Balanced(w)
    ensures Balanced(After(digest, w, step))
  {
    hide Next, Happenings, FiguresOf, MoveOf, Tally;
    var m, d := MoveOf(w.state, step), DeskOf(w);
    StepMoves(digest, w, step);
    StepFigures(digest, w.state, step);
    GaugeFigure(w.state);
    match m
    case Stay =>
    case RunNow(a, x) =>
      TallySnoc(d.history, a);
      TallySnoc(d.history + [a], x);
    case Enqueue(a, entry) =>
      TallySnoc(d.history, a);
      TallySnoc(d.history + [a], ReviewQueued(d.next, entry.call));
    case Settle(i, h) =>
      TallySnoc(d.history, h);
  }

  // ---------------------------------------------------------------------------
  // Every run
  // ---------------------------------------------------------------------------

  lemma {:induction false} RunKeeps(digest: Digest, w: World, steps: seq<Step>)
    requires Orderly(DeskOf(w)) && Balanced(w)
    ensures Orderly(DeskOf(Run(digest, w, steps))) && Balanced(Run(digest, w, steps))
    decreases |steps|
  {
    hide After, Orderly, Balanced, DeskOf, MoveOf, Moved;
    if steps != [] {
      StepKeepsBalance(digest, w, steps[0]);
      StepMoves(digest, w, steps[0]);
      MoveKeepsOrder(DeskOf(w), MoveOf(w.state, steps[0]));
      RunKeeps(digest, After(digest, w, steps[0]), steps[1..]);
    }
  }

  lemma BeginsInOrder()
    ensures Orderly(DeskOf(BEGINNING)) && Balanced(BEGINNING)
  {
  }

  /** Nothing is lost or counted twice, whatever the run. */
  lemma Conservation(digest: Digest, steps: seq<Step>)
    ensures var w := Run(digest, BEGINNING, steps);
      var t, g := Tally(w.history), w.state;
      && t.admitted == Counter(g.outcomes, "executed") + Counter(g.outcomes, "denied_human") + |g.pending|
      && Counter(g.outcomes, "review") == |g.pending| + t.approved + Counter(g.outcomes, "denied_human")
      && (g.gauge == Some(|g.pending|) || (g.gauge == None && g.pending == []))
  {
    hide Run;
    BeginsInOrder();
    RunKeeps(digest, BEGINNING, steps);
  }

  /** Request ids are never reused; each is settled at most once, and only for the call queued under it. */
  lemma EachRequestSettlesOnce(digest: Digest, steps: seq<Step>)
    ensures var h := Run(digest, BEGINNING, steps).history;
      QueuedOnce(h) && SettledOnce(h) && SettlesWhatWasQueued(h)
    ensures var w := Run(digest, BEGINNING, steps);
      forall i, id | QueuedAt(w.history, i, id) :: IsPending(w.state.pending, id) <==> !IsSettled(w.history, id)
  {
    hide Run, QueuedAt, SettledAt, IsSettled, WasQueued;
    BeginsInOrder();
    RunKeeps(digest, BEGINNING, steps);
  }
}
