/**
 The audit trail says what the gateway did: each text it writes is classified as what it is written for, and
 in every run an agent's replayed session is, entry by entry, what was done for that agent.
 */
module GatewayTrace {
  import opened Audit
  import opened Columns
  import opened Gateway
  import opened GatewayAudit
  import opened GatewayLedger
  import opened Orders
  import opened Text
  import R = Replay

  // ---------------------------------------------------------------------------
  // Texts
  // ---------------------------------------------------------------------------

  /** Refusals by the grant, by a limit, by a policy. */
  lemma ScopeRefusalClassifies(rest: string)
    ensures R.Classify("denied_by_scope: " + rest) == R.Denied(R.Scope)
  {
    hide R.ExecutedKind, R.BeforeColon, R.AccessKind;
    var e := "denied_by_scope: " + rest;
    assert e[0] == 'd';
    assert e[..15] == "denied_by_scope";
  }

  lemma RateRefusalClassifies(rest: string)
    ensures R.Classify("rate_limited: " + rest) == R.Denied(R.RateLimit)
  {
    hide R.ExecutedKind, R.BeforeColon, R.AccessKind;
    var e := "rate_limited: " + rest;
    assert e[0] == 'r';
    assert e[..12] == "rate_limited";
  }

  lemma CallsRefusalClassifies(rest: string)
    ensures R.Classify("daily_budget_exceeded: " + rest) == R.Denied(R.DailyCallBudget)
  {
    hide R.ExecutedKind, R.BeforeColon, R.AccessKind;
    var e := "daily_budget_exceeded: " + rest;
    assert e[0] == 'd' && e[1] == 'a';
    assert e[..21] == "daily_budget_exceeded";
  }

  lemma TokensRefusalClassifies(rest: string)
    ensures R.Classify("token_budget_exceeded: " + rest) == R.Denied(R.TokenBudget)
  {
    hide R.ExecutedKind, R.BeforeColon, R.AccessKind;
    var e := "token_budget_exceeded: " + rest;
    assert e[0] == 't';
    assert e[..21] == "token_budget_exceeded";
  }

  lemma PolicyRefusalClassifies(rest: string)
    ensures R.Classify("policy_denied: " + rest) == R.Denied(R.Policy)
  {
    hide R.ExecutedKind, R.BeforeColon, R.AccessKind;
    var e := "policy_denied: " + rest;
    assert e[0] == 'p';
    assert e[..13] == "policy_denied";
  }

  /** What a human decided. */
  lemma HumanRefusalClassifies(rest: string)
    ensures R.Classify("denied_by " + rest) == R.Denied(R.Human)
  {
    hide R.ExecutedKind, R.BeforeColon, R.AccessKind;
    var e := "denied_by " + rest;
    assert e[0] == 'd' && e[9] == ' ';
    assert e[..10] == "denied_by ";
  }

  lemma ApprovalClassifies(rest: string)
    ensures R.Classify("approved_by " + rest) == R.Approved
  {
    hide R.ExecutedKind, R.BeforeColon, R.AccessKind;
    var e := "approved_by " + rest;
    assert e[0] == 'a';
    assert e[..12] == "approved_by ";
  }

  /** What became of an admitted call. */
  lemma AllowanceClassifies(rest: string)
    ensures R.Classify("auto_allowed: " + rest) == R.AutoAllowed
  {
    hide R.ExecutedKind, R.BeforeColon, R.AccessKind;
    var e := "auto_allowed: " + rest;
    assert e[0] == 'a' && e[1] == 'u';
    assert e[..12] == "auto_allowed";
  }

  lemma RequestClassifies(rest: string)
    ensures R.Classify("approval_requested: " + rest) == R.ApprovalRequested
  {
    hide R.ExecutedKind, R.BeforeColon, R.AccessKind;
    var e := "approval_requested: " + rest;
    assert e[0] == 'a' && e[6] == 'a';
    assert e[..18] == "approval_requested";
  }

  lemma LateClassify(e: string)
    requires e != "" && e[0] in "mu"
    ensures R.Classify(e) == R.AccessKind(e)
  {
    hide R.ExecutedKind, R.BeforeColon, R.AccessKind;
  }

  /** Callers the service does not know or does not manage. */
  lemma StrangerClassifies(rest: string)
    ensures R.Classify("unknown_agent: " + rest) == R.Other
  {
    hide R.Classify;
    var e := "unknown_agent: " + rest;
    LateClassify(e);
    assert e[0] == 'u' && e[2] == 'k';
  }

  lemma UnmanagedClassifies(rest: string)
    ensures R.Classify("unmanaged_agent: " + rest) == R.UnmanagedAgent
  {
    hide R.Classify;
    var e := "unmanaged_agent: " + rest;
    LateClassify(e);
    assert e[0] == 'u';
    assert e[..15] == "unmanaged_agent";
  }

  /** Memory and resource operations. */
  lemma MemoryRefusalClassifies(rest: string)
    ensures R.Classify("memory_denied: " + rest) == R.Denied(R.Scope)
  {
    hide R.Classify;
    var e := "memory_denied: " + rest;
    LateClassify(e);
    assert e[0] == 'm';
    assert e[..13] == "memory_denied";
  }

  lemma MemoryStoreClassifies(rest: string)
    ensures R.Classify("memory_stored: " + rest) == R.Memory
  {
    hide R.Classify;
    var e := "memory_stored: " + rest;
    LateClassify(e);
    assert e[0] == 'm' && e[7] == 's';
    assert e[..7] == "memory_";
  }

  lemma MemoryRecallClassifies(rest: string)
    ensures R.Classify("memory_recalled: " + rest) == R.Memory
  {
    hide R.Classify;
    var e := "memory_recalled: " + rest;
    LateClassify(e);
    assert e[0] == 'm' && e[7] == 'r';
    assert e[..7] == "memory_";
  }

  lemma MemoryForgetClassifies(rest: string)
    ensures R.Classify("memory_forgotten: " + rest) == R.Memory
  {
    hide R.Classify;
    var e := "memory_forgotten: " + rest;
    LateClassify(e);
    assert e[0] == 'm' && e[7] == 'f';
    assert e[..7] == "memory_";
  }

  lemma ReadClassifies(rest: string)
    ensures R.Classify("resource_read: " + rest) == R.ResourceAccess(true)
  {
    hide R.ExecutedKind, R.BeforeColon;
    var e := "resource_read: " + rest;
    assert e[0] == 'r' && e[1] == 'e';
    assert e[..13] == "resource_read";
  }

  lemma ReadRefusalClassifies(rest: string)
    ensures R.Classify("resource_denied: " + rest) == R.ResourceAccess(false)
  {
    hide R.ExecutedKind, R.BeforeColon;
    var e := "resource_denied: " + rest;
    assert e[0] == 'r' && e[9] == 'd';
    assert e[..15] == "resource_denied";
  }

  lemma ListingClassifies(rest: string)
    ensures R.Classify("tools_listed: " + rest) == R.Discovery
  {
    hide R.ExecutedKind, R.BeforeColon;
    var e := "tools_listed: " + rest;
    assert e[0] == 't' && e[2] == 'o';
    assert e[..12] == "tools_listed";
  }

  lemma DelegatedIs(rest: string)
    ensures R.Classify("delegated_by " + rest) == R.Delegated(R.BeforeColon(rest))
  {
    hide R.ExecutedKind, R.BeforeColon, R.AccessKind;
    var e := "delegated_by " + rest;
    assert e[0] == 'd' && e[2] == 'l';
    assert e[..13] == "delegated_by " && e[13..] == rest;
  }

  lemma StartsLonger(a: string, b: string, k: nat)
    requires k <= |a| && a <= b
    ensures ": " <= a[k..] ==> ": " <= b[k..]
  {
    assert a[k..] <= b[k..];
  }

  /** A delegation is read as that of its delegator exactly if the delegator's name holds no ": ". */
  lemma DelegationClassifies(delegator: string, tool: string)
    ensures R.Classify("delegated_by " + delegator + ": " + tool) == R.Delegated(delegator) <==> R.Absent(delegator, ": ")
  {
    hide R.Classify;
    var rest := delegator + ": " + tool;
    assert "delegated_by " + delegator + ": " + tool == "delegated_by " + rest;
    DelegatedIs(rest);
    R.AbsentIs(delegator, ": ");
    assert rest[|delegator|..] == ": " + tool;
    var i := Find(rest, ": ").value;
    assert i <= |delegator|;
    if i < |delegator| {
      assert rest[i + 1] == rest[i..i + 2][1] == ' ' && rest[|delegator|] == ':';
      assert delegator[i..][..2] == rest[i..i + 2];
    } else {
      assert rest[..i] == delegator;
      forall k | 0 <= k <= |delegator| ensures !(": " <= delegator[k..]) {
        StartsLonger(delegator, rest, k);
      }
    }
  }

  // ---------------------------------------------------------------------------
  // What a step does, and what it writes
  // ---------------------------------------------------------------------------

  /** What was done for an agent, as a replay would put it. */
  datatype Deed = Deed(agent: string, kind: R.StepKind)

  function Deeds(g: State, step: Step): seq<Deed> {
    match step
    case Mediate(call, limits, actionClass, t, run) =>
      (match Checked(g, call.agent, limits, actionClass, t).1
       case OutOfScope => [Deed(call.agent, R.Denied(R.Scope))]
       case RateLimited => [Deed(call.agent, R.Denied(R.RateLimit))]
       case OverCalls => [Deed(call.agent, R.Denied(R.DailyCallBudget))]
       case OverTokens => [Deed(call.agent, R.Denied(R.TokenBudget))]
       case Admitted =>
         if actionClass == Auto then [Deed(call.agent, R.AutoAllowed), Deed(call.agent, R.Executed(run.ok, run.tokens))]
         else [Deed(call.agent, R.ApprovalRequested)])
    case Resolve(requestId, approved, decider, tick, run) =>
      (match Position(g.pending, requestId)
       case None => []
       case Some(i) =>
         var agent := g.pending[i].call.agent;
         if approved then [Deed(agent, R.Approved), Deed(agent, R.Executed(run.ok, run.tokens))]
         else [Deed(agent, R.Denied(R.Human))])
    case Refuse(UnknownAgent(agent)) => [Deed(agent, R.Other)]
    case Refuse(UnmanagedAgent(agent)) => [Deed(agent, R.UnmanagedAgent)]
    case Refuse(PolicyDenied(call)) => [Deed(call.agent, R.Denied(R.Policy))]
    case Note(actor, event) => [Deed(actor, R.Classify(event))]
  }

  /** Names that the log and the replay can tell apart from the texts around them. */
  predicate PlainCall(call: ToolCall) {
    CleanNames(call) && R.Absent(call.tool, "ok=") && R.Absent(call.tool, "tokens=")
  }

  predicate PlainStep(step: Step) {
    match step
    case Mediate(call, _, _, _, _) => PlainCall(call)
    case Resolve(_, _, decider, _, _) => Clean(decider)
    case Refuse(UnknownAgent(agent)) => Clean(agent)
    case Refuse(UnmanagedAgent(agent)) => Clean(agent)
    case Refuse(PolicyDenied(call)) => CleanNames(call)
    case Note(actor, event) => Clean(actor) && Clean(event)
  }

  ghost predicate PlainQueue(g: State) {
    forall p | p in g.pending :: PlainCall(p.call)
  }

  /** The entries record the deeds, one by one. */
  ghost predicate Record(es: seq<Entry>, deeds: seq<Deed>) {
    |es| == |deeds| && forall i | 0 <= i < |es| :: es[i].actor == deeds[i].agent && R.Classify(es[i].event) == deeds[i].kind
  }

  /** The log grew by a record of the deeds. */
  ghost predicate Grew(log: Column, log': Column, deeds: seq<Deed>) {
    && Numbered(log') && |log'| == |log| + |deeds|
    && Entries(log) <= Entries(log') && Record(Entries(log')[|Entries(log)|..], deeds)
  }

  lemma NothingGrew(log: Column)
    requires Numbered(log)
    ensures Grew(log, log, [])
  {
  }

  lemma GrowsMore(log: Column, mid: Column, log': Column, a: seq<Deed>, b: seq<Deed>)
    requires Grew(log, mid, a) && Grew(mid, log', b)
    ensures Grew(log, log', a + b)
  {
    hide Entries, Numbered, R.Classify;
    var x, y, z := Entries(log), Entries(mid), Entries(log');
    var first, rest, both := y[|x|..], z[|y|..], z[|x|..];
    assert z == y + rest && y == x + first;
    assert both == first + rest;
    RecordsJoin(first, rest, a, b);
  }

  lemma RecordsJoin(first: seq<Entry>, rest: seq<Entry>, a: seq<Deed>, b: seq<Deed>)
    requires Record(first, a) && Record(rest, b)
    ensures Record(first + rest, a + b)
  {
    hide R.Classify;
  }

  /** One audited text. */
  lemma AuditedDeed(digest: Digest, g: State, actor: string, event: string)
    requires Numbered(g.log) && |g.log| < PAD_LIMIT && Clean(actor) && Clean(event)
    ensures Grew(g.log, Audited(digest, g, actor, event).log, [Deed(actor, R.Classify(event))])
  {
    hide Appended, Entries, R.Classify;
    AppendedEntries(digest, g.log, actor, event);
    var e := Link(digest, actor, event, TipOf(Entries(g.log)));
    assert (Entries(g.log) + [e])[|Entries(g.log)|..] == [e];
  }

  lemma CleanJoin(a: string, b: string)
    ensures Clean(a) && Clean(b) ==> Clean(a + b)
  {
  }

  /** An execution leaves one entry, which replays as it went. */
  lemma RanDeed(digest: Digest, g: State, call: ToolCall, run: ToolOutcome, now: nat)
    requires Numbered(g.log) && |g.log| < PAD_LIMIT && PlainCall(call)
    ensures Grew(g.log, Ran(digest, g, call, run, now).log, [Deed(call.agent, R.Executed(run.ok, run.tokens))])
  {
    hide Grew, Appended, ExecutedText, DailyEntry, Bumped, R.Classify, R.Absent, Numbered;
    ExecutedTextIsClean(call.tool, run);
    ExecutionReadsBack(call.tool, run);
    AuditedDeed(digest, TokensNoted(g, call.agent, run.tokens, now), call.agent, ExecutedText(call.tool, run));
  }

  lemma LogOf(digest: Digest, g: State, actor: string, event: string, series: string)
    ensures Refused(digest, g, actor, event, series).log == Audited(digest, g, actor, event).log
  {
  }

  lemma HeadingsAreClean()
    ensures Clean("denied_by_scope: ") && Clean(" in ") && Clean("rate_limited: ")
    ensures Clean("daily_budget_exceeded: ") && Clean("token_budget_exceeded: ")
  {
  }

  lemma RefusedDeed(digest: Digest, g: State, step: Step)
    requires Numbered(g.log) && |g.log| + 2 < PAD_LIMIT && step.Mediate? && PlainStep(step)
    requires Checked(g, step.call.agent, step.limits, step.actionClass, step.ticks).1 != Decision.Admitted
    ensures Grew(g.log, Next(digest, g, step).log, Deeds(g, step))
  {
    hide Grew, Checked, Appended, R.Classify, R.Absent, Numbered, Recorded, Clean;
    var call := step.call;
    CheckedKeeps(g, call.agent, step.limits, step.actionClass, step.ticks);
    var (g1, decision) := Checked(g, call.agent, step.limits, step.actionClass, step.ticks);
    HeadingsAreClean();
    CleanJoin("denied_by_scope: ", call.tool);
    CleanJoin("denied_by_scope: " + call.tool, " in ");
    CleanJoin("denied_by_scope: " + call.tool + " in ", call.room);
    CleanJoin("rate_limited: ", call.tool);
    CleanJoin("daily_budget_exceeded: ", call.tool);
    CleanJoin("token_budget_exceeded: ", call.tool);
    assert "denied_by_scope: " + call.tool + " in " + call.room == "denied_by_scope: " + (call.tool + " in " + call.room);
    ScopeRefusalClassifies(call.tool + " in " + call.room);
    RateRefusalClassifies(call.tool);
    CallsRefusalClassifies(call.tool);
    TokensRefusalClassifies(call.tool);
    var (event, series) := match decision
      case OutOfScope => ("denied_by_scope: " + call.tool + " in " + call.room, "denied_scope")
      case RateLimited => ("rate_limited: " + call.tool, "rate_limited")
      case OverCalls => ("daily_budget_exceeded: " + call.tool, "budget_exceeded")
      case _ => ("token_budget_exceeded: " + call.tool, "token_budget_exceeded");
    AuditedDeed(digest, g1, call.agent, event);
    LogOf(digest, g1, call.agent, event, series);
  }

  lemma QueuedLog(digest: Digest, g: State, call: ToolCall)
    ensures Queued(digest, g, call).log == Appended(digest, g.log, call.agent, "approval_requested: " + call.tool)
  {
  }

  lemma AdmittedDeed(digest: Digest, g: State, step: Step)
    requires Numbered(g.log) && |g.log| + 2 < PAD_LIMIT && step.Mediate? && PlainStep(step)
    requires Checked(g, step.call.agent, step.limits, step.actionClass, step.ticks).1 == Decision.Admitted
    ensures Grew(g.log, Next(digest, g, step).log, Deeds(g, step))
  {
    hide Grew, Checked, Appended, R.Classify, R.Absent, Numbered, DailyEntry, Ran, Bumped;
    var call, t, run := step.call, step.ticks, step.run;
    CheckedKeeps(g, call.agent, step.limits, step.actionClass, t);
    var g1 := Checked(g, call.agent, step.limits, step.actionClass, t).0;
    var g2 := Admission(g1, call.agent, t);
    CleanJoin("auto_allowed: ", call.tool);
    CleanJoin("approval_requested: ", call.tool);
    AllowanceClassifies(call.tool);
    RequestClassifies(call.tool);
    if step.actionClass == Auto {
      var g3 := g2.(nextCallSeq := g2.nextCallSeq + 1);
      var g4 := Audited(digest, g3, call.agent, "auto_allowed: " + call.tool);
      AuditedDeed(digest, g3, call.agent, "auto_allowed: " + call.tool);
      GrewTo(g3.log, g4.log, [Deed(call.agent, R.AutoAllowed)]);
      RanDeed(digest, g4, call, run, t.noteTokens);
      assert Deeds(g, step) == [Deed(call.agent, R.AutoAllowed)] + [Deed(call.agent, R.Executed(run.ok, run.tokens))];
      GrowsMore(g.log, g4.log, Next(digest, g, step).log, [Deed(call.agent, R.AutoAllowed)], [Deed(call.agent, R.Executed(run.ok, run.tokens))]);
    } else {
      var g3 := g2.(nextCallSeq := g2.nextCallSeq + 1, nextRequestId := g2.nextRequestId + 1);
      AuditedDeed(digest, g3, call.agent, "approval_requested: " + call.tool);
      QueuedLog(digest, g2, call);
    }
  }

  lemma ResolvedDeed(digest: Digest, g: State, step: Step)
    requires Numbered(g.log) && |g.log| + 2 < PAD_LIMIT && step.Resolve? && PlainStep(step) && PlainQueue(g)
    ensures Grew(g.log, Next(digest, g, step).log, Deeds(g, step))
  {
    hide Grew, Appended, R.Classify, R.Absent, Numbered, Ran, Recorded;
    var i := Position(g.pending, step.requestId);
    if i == None {
      NothingGrew(g.log);
    } else {
      var call, run := g.pending[i.value].call, step.run;
      assert PlainCall(call);
      var rest := step.decider + ": " + call.tool;
      CleanJoin(step.decider, ": ");
      CleanJoin(step.decider + ": ", call.tool);
      CleanJoin("approved_by ", rest);
      CleanJoin("denied_by ", rest);
      ApprovalClassifies(rest);
      HumanRefusalClassifies(rest);
      assert "approved_by " + step.decider + ": " + call.tool == "approved_by " + rest;
      assert "denied_by " + step.decider + ": " + call.tool == "denied_by " + rest;
      var g1 := g.(pending := Without(g.pending, i.value));
      if step.approved {
        var g2 := Audited(digest, g1, call.agent, "approved_by " + rest);
        AuditedDeed(digest, g1, call.agent, "approved_by " + rest);
        GrewTo(g1.log, g2.log, [Deed(call.agent, R.Approved)]);
        RanDeed(digest, g2, call, run, step.tick);
        assert Deeds(g, step) == [Deed(call.agent, R.Approved)] + [Deed(call.agent, R.Executed(run.ok, run.tokens))];
        GrowsMore(g.log, g2.log, Next(digest, g, step).log, [Deed(call.agent, R.Approved)], [Deed(call.agent, R.Executed(run.ok, run.tokens))]);
      } else {
        AuditedDeed(digest, g1, call.agent, "denied_by " + rest);
        LogOf(digest, g1, call.agent, "denied_by " + rest, "denied_human");
      }
    }
  }

  lemma OtherDeed(digest: Digest, g: State, step: Step)
    requires Numbered(g.log) && |g.log| + 2 < PAD_LIMIT && (step.Refuse? || step.Note?) && PlainStep(step)
    ensures Grew(g.log, Next(digest, g, step).log, Deeds(g, step))
  {
    hide Grew, Appended, R.Classify, Numbered, Recorded;
    match step {
      case Note(actor, event) => AuditedDeed(digest, g, actor, event);
      case Refuse(UnknownAgent(agent)) =>
        CleanJoin("unknown_agent: ", agent);
        StrangerClassifies(agent);
        AuditedDeed(digest, g, agent, "unknown_agent: " + agent);
        LogOf(digest, g, agent, "unknown_agent: " + agent, "unknown_agent");
      case Refuse(UnmanagedAgent(agent)) =>
        CleanJoin("unmanaged_agent: ", agent);
        UnmanagedClassifies(agent);
        AuditedDeed(digest, g, agent, "unmanaged_agent: " + agent);
        LogOf(digest, g, agent, "unmanaged_agent: " + agent, "unmanaged");
      case Refuse(PolicyDenied(call)) =>
        CleanJoin("policy_denied: ", call.tool);
        CleanJoin("policy_denied: " + call.tool, " in ");
        CleanJoin("policy_denied: " + call.tool + " in ", call.room);
        assert "policy_denied: " + call.tool + " in " + call.room == "policy_denied: " + (call.tool + " in " + call.room);
        PolicyRefusalClassifies(call.tool + " in " + call.room);
        AuditedDeed(digest, g, call.agent, "policy_denied: " + call.tool + " in " + call.room);
        LogOf(digest, g, call.agent, "policy_denied: " + call.tool + " in " + call.room, "denied_policy");
      case _ =>
    }
  }

  lemma StepDeeds(digest: Digest, g: State, step: Step)
    requires Numbered(g.log) && |g.log| + 2 < PAD_LIMIT && PlainStep(step) && PlainQueue(g)
    ensures Grew(g.log, Next(digest, g, step).log, Deeds(g, step))
    ensures |Next(digest, g, step).log| <= |g.log| + 2 && Numbered(Next(digest, g, step).log)
  {
    hide Next, PlainStep, Checked, Numbered, R.Classify, Grew, Deeds;
    FewDeeds(g, step);
    if step.Mediate? {
      if Checked(g, step.call.agent, step.limits, step.actionClass, step.ticks).1 == Decision.Admitted {
        AdmittedDeed(digest, g, step);
      } else {
        RefusedDeed(digest, g, step);
      }
    } else if step.Resolve? {
      ResolvedDeed(digest, g, step);
    } else {
      OtherDeed(digest, g, step);
    }
    GrewTo(g.log, Next(digest, g, step).log, Deeds(g, step));
  }

  lemma FewDeeds(g: State, step: Step)
    ensures |Deeds(g, step)| <= 2
  {
    hide Checked, R.Classify;
  }

  lemma GrewTo(log: Column, log': Column, deeds: seq<Deed>)
    requires Grew(log, log', deeds)
    ensures Numbered(log') && |log'| == |log| + |deeds|
  {
  }

  // ---------------------------------------------------------------------------
  // Runs
  // ---------------------------------------------------------------------------

  function DeedsOf(digest: Digest, w: World, steps: seq<Step>): seq<Deed>
    decreases |steps|
  {
    if steps == [] then [] else Deeds(w.state, steps[0]) + DeedsOf(digest, After(digest, w, steps[0]), steps[1..])
  }

  lemma QueueStaysPlain(digest: Digest, w: World, step: Step)
    requires PlainQueue(w.state) && PlainStep(step)
    ensures PlainQueue(After(digest, w, step).state)
  {
    hide Next, Happenings, PlainCall, Checked;
    StepMoves(digest, w, step);
    MoveKeepsClean(DeskOf(w), MoveOf(w.state, step));
    QueuedCall(w.state, step);
  }

  lemma {:induction false} RunDeeds(digest: Digest, w: World, steps: seq<Step>)
    requires Numbered(w.state.log) && |w.state.log| + 2 * |steps| + 1 < PAD_LIMIT && PlainQueue(w.state)
    requires forall s | s in steps :: PlainStep(s)
    ensures Grew(w.state.log, Run(digest, w, steps).state.log, DeedsOf(digest, w, steps))
    decreases |steps|
  {
    hide Grew, Deeds, Next, Happenings, PlainQueue, PlainStep, Numbered;
    if steps == [] {
      NothingGrew(w.state.log);
    } else {
      var w1 := After(digest, w, steps[0]);
      assert PlainStep(steps[0]);
      StepDeeds(digest, w.state, steps[0]);
      QueueStaysPlain(digest, w, steps[0]);
      RunDeeds(digest, w1, steps[1..]);
      GrowsMore(w.state.log, w1.state.log, Run(digest, w, steps).state.log, Deeds(w.state, steps[0]), DeedsOf(digest, w1, steps[1..]));
    }
  }

  function KindsFor(deeds: seq<Deed>, agent: string): seq<R.StepKind> {
    if deeds == [] then []
    else
      var n := |deeds| - 1;
      KindsFor(deeds[..n], agent) + if deeds[n].agent == agent then [deeds[n].kind] else []
  }

  function Kinds(steps: seq<R.SessionStep>): seq<R.StepKind> {
    seq(|steps|, i requires 0 <= i < |steps| => steps[i].kind)
  }

  lemma {:induction false} SessionRecords(es: seq<Entry>, deeds: seq<Deed>, agent: string)
    requires Record(es, deeds)
    ensures Kinds(R.SessionSteps(es, agent)) == KindsFor(deeds, agent)
  {
    hide R.Classify;
    if es != [] {
      var n := |es| - 1;
      SessionRecords(es[..n], deeds[..n], agent);
      var before := R.SessionSteps(es[..n], agent);
      if es[n].actor == agent {
        var last := R.SessionStep(n, R.Classify(es[n].event), es[n].event);
        assert R.SessionSteps(es, agent) == before + [last];
        assert Kinds(before + [last]) == Kinds(before) + [last.kind];
      } else {
        assert before + [] == before;
      }
    }
  }

  /**
   In every run, what an agent's session replays, entry by entry, is what was done for that agent: each
   refusal with its reason, each allowance, request, approval and denial, and each execution with its result.
   */
  lemma RunReplaysAsItWent(digest: Digest, steps: seq<Step>, agent: string)
    requires 2 * |steps| + 1 < PAD_LIMIT && forall s | s in steps :: PlainStep(s)
    ensures Kinds(R.SessionSteps(Entries(Run(digest, BEGINNING, steps).state.log), agent))
      == KindsFor(DeedsOf(digest, BEGINNING, steps), agent)
  {
    hide Run, DeedsOf, R.SessionSteps, PlainStep;
    var log := Run(digest, BEGINNING, steps).state.log;
    NoEntries();
    RunDeeds(digest, BEGINNING, steps);
    assert Entries(log)[0..] == Entries(log);
    SessionRecords(Entries(log), DeedsOf(digest, BEGINNING, steps), agent);
  }

  lemma NoEntries()
    ensures Numbered(BEGINNING.state.log) && |BEGINNING.state.log| == 0 && Entries(BEGINNING.state.log) == [] && PlainQueue(BEGINNING.state)
  {
    BeginsAudited((a, b, c) => 0);
    SortedKeysAreKeys(map[]);
  }

  // ---------------------------------------------------------------------------
  // Counters
  // ---------------------------------------------------------------------------

  /** The series that counts a deed; admissions and approvals are counted by what follows them. */
  function SeriesOf(kind: R.StepKind): Option<string> {
    match kind
    case Executed(_, _) => Some("executed")
    case ApprovalRequested => Some("review")
    case Denied(Scope) => Some("denied_scope")
    case Denied(RateLimit) => Some("rate_limited")
    case Denied(DailyCallBudget) => Some("budget_exceeded")
    case Denied(TokenBudget) => Some("token_budget_exceeded")
    case Denied(Policy) => Some("denied_policy")
    case Denied(Human) => Some("denied_human")
    case UnmanagedAgent => Some("unmanaged")
    case Other => Some("unknown_agent")
    case _ => None
  }

  function Count(deeds: seq<Deed>, series: string): nat {
    if deeds == [] then 0
    else (if SeriesOf(deeds[0].kind) == Some(series) then 1 else 0) + Count(deeds[1..], series)
  }

  /** The deeds of mediation, resolution and refusal; notes are not counted. */
  function Counted(g: State, step: Step): seq<Deed> {
    if step.Note? then [] else Deeds(g, step)
  }

  function CountedIn(digest: Digest, w: World, steps: seq<Step>, series: string): nat
    decreases |steps|
  {
    if steps == [] then 0
    else Count(Counted(w.state, steps[0]), series) + CountedIn(digest, After(digest, w, steps[0]), steps[1..], series)
  }

  lemma RecordedCounts(g: State, outcome: string, series: string)
    ensures Counter(Recorded(g, outcome).outcomes, series) == Counter(g.outcomes, series) + if outcome == series then 1 else 0
  {
  }

  lemma CountOne(d: Deed, series: string)
    ensures Count([d], series) == if SeriesOf(d.kind) == Some(series) then 1 else 0
  {
  }

  lemma CountTwo(d: Deed, e: Deed, series: string)
    requires SeriesOf(d.kind) == None
    ensures Count([d, e], series) == if SeriesOf(e.kind) == Some(series) then 1 else 0
  {
    assert [d, e][1..] == [e];
    CountOne(e, series);
  }

  lemma RefusedCounts(digest: Digest, g: State, actor: string, event: string, outcome: string, series: string)
    ensures Counter(Refused(digest, g, actor, event, outcome).outcomes, series)
      == Counter(g.outcomes, series) + if outcome == series then 1 else 0
  {
    hide Appended, Recorded;
    RecordedCounts(Audited(digest, g, actor, event), outcome, series);
  }

  lemma RanCounts(digest: Digest, g: State, call: ToolCall, run: ToolOutcome, now: nat, series: string)
    ensures Counter(Ran(digest, g, call, run, now).outcomes, series)
      == Counter(g.outcomes, series) + if series == "executed" then 1 else 0
  {
    RanKeeps(digest, g, call, run, now);
  }

  lemma MediateCounts(digest: Digest, g: State, step: Step, series: string)
    requires step.Mediate?
    ensures Counter(Next(digest, g, step).outcomes, series) == Counter(g.outcomes, series) + Count(Deeds(g, step), series)
  {
    hide Checked, Ran, Appended, DailyEntry, Recorded, Refused, Counter, Count, Bumped, SeriesOf;
    var call, t := step.call, step.ticks;
    SeriesAre(step.run);
    CheckedKeeps(g, call.agent, step.limits, step.actionClass, t);
    var (g1, decision) := Checked(g, call.agent, step.limits, step.actionClass, t);
    match decision {
      case OutOfScope =>
        RefusedCounts(digest, g1, call.agent, "denied_by_scope: " + call.tool + " in " + call.room, "denied_scope", series);
        CountOne(Deed(call.agent, R.Denied(R.Scope)), series);
      case RateLimited =>
        RefusedCounts(digest, g1, call.agent, "rate_limited: " + call.tool, "rate_limited", series);
        CountOne(Deed(call.agent, R.Denied(R.RateLimit)), series);
      case OverCalls =>
        RefusedCounts(digest, g1, call.agent, "daily_budget_exceeded: " + call.tool, "budget_exceeded", series);
        CountOne(Deed(call.agent, R.Denied(R.DailyCallBudget)), series);
      case OverTokens =>
        RefusedCounts(digest, g1, call.agent, "token_budget_exceeded: " + call.tool, "token_budget_exceeded", series);
        CountOne(Deed(call.agent, R.Denied(R.TokenBudget)), series);
      case Admitted =>
        var g2 := Admission(g1, call.agent, t);
        if step.actionClass == Auto {
          var g3 := Audited(digest, g2.(nextCallSeq := g2.nextCallSeq + 1), call.agent, "auto_allowed: " + call.tool);
          RanCounts(digest, g3, call, step.run, t.noteTokens, series);
          CountTwo(Deed(call.agent, R.AutoAllowed), Deed(call.agent, R.Executed(step.run.ok, step.run.tokens)), series);
        } else {
          var g3 := Audited(digest, g2.(nextCallSeq := g2.nextCallSeq + 1, nextRequestId := g2.nextRequestId + 1), call.agent, "approval_requested: " + call.tool);
          RecordedCounts(g3.(pending := g3.pending + [PendingApproval(g2.nextRequestId, CallId(g2.nextCallSeq), call)]), "review", series);
          CountOne(Deed(call.agent, R.ApprovalRequested), series);
        }
    }
  }

  lemma SeriesAre(run: ToolOutcome)
    ensures SeriesOf(R.Denied(R.Scope)) == Some("denied_scope") && SeriesOf(R.Denied(R.RateLimit)) == Some("rate_limited")
    ensures SeriesOf(R.Denied(R.DailyCallBudget)) == Some("budget_exceeded")
    ensures SeriesOf(R.Denied(R.TokenBudget)) == Some("token_budget_exceeded")
    ensures SeriesOf(R.Denied(R.Policy)) == Some("denied_policy") && SeriesOf(R.Denied(R.Human)) == Some("denied_human")
    ensures SeriesOf(R.Executed(run.ok, run.tokens)) == Some("executed") && SeriesOf(R.ApprovalRequested) == Some("review")
    ensures SeriesOf(R.UnmanagedAgent) == Some("unmanaged") && SeriesOf(R.Other) == Some("unknown_agent")
    ensures SeriesOf(R.AutoAllowed) == None && SeriesOf(R.Approved) == None
  {
  }

  lemma ResolveCounts(digest: Digest, g: State, step: Step, series: string)
    requires step.Resolve?
    ensures Counter(Next(digest, g, step).outcomes, series) == Counter(g.outcomes, series) + Count(Deeds(g, step), series)
  {
    hide Ran, Appended, Recorded, Refused, Counter, Bumped, SeriesOf;
    SeriesAre(step.run);
    var at := Position(g.pending, step.requestId);
    if at.Some? {
      var call := g.pending[at.value].call;
      var g1 := g.(pending := Without(g.pending, at.value));
      if step.approved {
        var g2 := Audited(digest, g1, call.agent, "approved_by " + step.decider + ": " + call.tool);
        RanCounts(digest, g2, call, step.run, step.tick, series);
        CountTwo(Deed(call.agent, R.Approved), Deed(call.agent, R.Executed(step.run.ok, step.run.tokens)), series);
      } else {
        RefusedCounts(digest, g1, call.agent, "denied_by " + step.decider + ": " + call.tool, "denied_human", series);
        CountOne(Deed(call.agent, R.Denied(R.Human)), series);
      }
    }
  }

  lemma RefuseCounts(digest: Digest, g: State, step: Step, series: string)
    requires step.Refuse?
    ensures Counter(Next(digest, g, step).outcomes, series) == Counter(g.outcomes, series) + Count(Deeds(g, step), series)
  {
    hide Appended, Recorded, Refused, Counter, Bumped, SeriesOf;
    SeriesAre(ToolOutcome(true, "", 0));
    match step.why {
      case UnknownAgent(agent) =>
        RefusedCounts(digest, g, agent, "unknown_agent: " + agent, "unknown_agent", series);
        CountOne(Deed(agent, R.Other), series);
      case UnmanagedAgent(agent) =>
        RefusedCounts(digest, g, agent, "unmanaged_agent: " + agent, "unmanaged", series);
        CountOne(Deed(agent, R.UnmanagedAgent), series);
      case PolicyDenied(call) =>
        RefusedCounts(digest, g, call.agent, "policy_denied: " + call.tool + " in " + call.room, "denied_policy", series);
        CountOne(Deed(call.agent, R.Denied(R.Policy)), series);
    }
  }

  lemma StepCounts(digest: Digest, g: State, step: Step, series: string)
    ensures Counter(Next(digest, g, step).outcomes, series) == Counter(g.outcomes, series) + Count(Counted(g, step), series)
  {
    hide Next, Deeds, Count;
    match step {
      case Mediate(_, _, _, _, _) => MediateCounts(digest, g, step, series);
      case Resolve(_, _, _, _, _) => ResolveCounts(digest, g, step, series);
      case Refuse(_) => RefuseCounts(digest, g, step, series);
      case Note(_, _) => NotesAreNotCounted(digest, g, step, series);
    }
  }

  lemma NotesAreNotCounted(digest: Digest, g: State, step: Step, series: string)
    requires step.Note?
    ensures Next(digest, g, step).outcomes == g.outcomes && Count([], series) == 0
  {
    hide Appended;
  }

  lemma {:induction false} RunCounts(digest: Digest, w: World, steps: seq<Step>, series: string)
    ensures Counter(Run(digest, w, steps).state.outcomes, series)
      == Counter(w.state.outcomes, series) + CountedIn(digest, w, steps, series)
    decreases |steps|
  {
    hide Next, Deeds, Count, Counted, Counter, Happenings;
    if steps != [] {
      StepCounts(digest, w.state, steps[0], series);
      RunCounts(digest, After(digest, w, steps[0]), steps[1..], series);
    }
  }

  /** In every run each series counts the deeds of its kind, and no other series counts anything. */
  lemma CountersTell(digest: Digest, steps: seq<Step>, series: string)
    ensures Counter(Run(digest, BEGINNING, steps).state.outcomes, series) == CountedIn(digest, BEGINNING, steps, series)
  {
    hide Run, CountedIn;
    RunCounts(digest, BEGINNING, steps, series);
  }
}
