/**
 The gateway object. Its methods update its fields one at a time; each is proved to do what the
 state machine says, so every law about runs holds of it.
 */
module AgentGateway {
  import opened Audit
  import opened Columns
  import opened Gateway
  import opened Orders
  import opened Text

  /** An agent's capability grant. */
  datatype Grant = Grant(
    agent: string,
    tools: seq<string>,
    rooms: seq<string>,
    limits: Limits,
    defaultClass: ActionClass,
    overrides: seq<(string, ActionClass)>)
  {
    function Override(entries: seq<(string, ActionClass)>, tool: string): ActionClass {
      if entries == [] then defaultClass
      else if entries[0].0 == tool then entries[0].1
      else Override(entries[1..], tool)
    }

    function Classify(tool: string, room: string): ActionClass {
      if room !in rooms || tool !in tools then Forbidden else Override(overrides, tool)
    }
  }

  datatype Effect = Allow | RequireReview | Deny

  /** A policy only tightens a classification. */
  function Refine(actionClass: ActionClass, effect: Effect): ActionClass {
    if actionClass == Forbidden then Forbidden
    else
      match effect
      case Deny => Forbidden
      case RequireReview => Review
      case Allow => actionClass
  }

  /** One conditional rule; an absent matcher matches anything. */
  datatype PolicyRule = PolicyRule(effect: Effect, tool: Option<string>, room: Option<string>, argsContain: Option<string>) {
    predicate Matches(call: ToolCall) {
      && (tool == None || tool == Some(call.tool))
      && (room == None || room == Some(call.room))
      && (argsContain.Some? ==> Find(call.args, argsContain.value).Some?)
    }
  }

  function FirstMatch(rules: seq<PolicyRule>, call: ToolCall): (r: Option<nat>)
    ensures r.Some? ==> r.value < |rules| && rules[r.value].Matches(call)
    ensures forall i | 0 <= i < (if r.Some? then r.value else |rules|) :: !rules[i].Matches(call)
  {
    if rules == [] then None
    else if rules[0].Matches(call) then Some(0)
    else
      match FirstMatch(rules[1..], call)
      case Some(i) => Some(i + 1)
      case None => None
  }

  /** A policy: the first matching rule decides, else the default. */
  datatype PolicySet = PolicySet(rules: seq<PolicyRule>, defaultEffect: Effect) {
    function Evaluate(call: ToolCall): Effect {
      match FirstMatch(rules, call)
      case Some(i) => rules[i].effect
      case None => defaultEffect
    }
  }

  /** The namespace of an application service: a localpart prefix on one server. */
  datatype AgentNamespace = AgentNamespace(serverName: string, localpartPrefix: string) {
    predicate Manages(user: string) {
      ServerOf(user) == serverName && StartsWith(LocalpartOf(user), localpartPrefix)
    }

    /** The id of the agent of that name. */
    function Minted(name: string): string {
      "@" + localpartPrefix + name + ":" + serverName
    }
  }

  function ServerOf(user: string): string {
    match SplitOnce(user, ':') case Some((_, server)) => server case None => ""
  }

  function LocalpartOf(user: string): string {
    if !StartsWith(user, "@") then ""
    else match SplitOnce(user[1..], ':') case Some((local, _)) => local case None => ""
  }

  lemma IdParts(local: string, server: string)
    requires ':' !in local
    ensures ServerOf("@" + local + ":" + server) == server && LocalpartOf("@" + local + ":" + server) == local
  {
    hide SplitOnce;
    var user := "@" + local + ":" + server;
    assert user == ("@" + local) + [':'] + server && user[1..] == local + [':'] + server;
    SplitOnceAt("@" + local, ':', server);
    SplitOnceAt(local, ':', server);
  }

  predicate UserIdOk(user: string) {
    StartsWith(user, "@") && SplitOnce(user, ':').Some?
  }

  lemma IdFromParts(user: string)
    requires UserIdOk(user)
    ensures ':' !in LocalpartOf(user) && user == "@" + LocalpartOf(user) + ":" + ServerOf(user)
  {
    var (head, server) := SplitOnce(user, ':').value;
    assert head[0] == '@';
    assert user[1..] == head[1..] + [':'] + server;
    SplitOnceAt(head[1..], ':', server);
  }

  /** A user is managed exactly if its id has the form of those the service mints. */
  lemma ManagedIsMinted(ns: AgentNamespace, user: string)
    requires UserIdOk(user)
    ensures ns.Manages(user) <==> exists name :: ':' !in ns.localpartPrefix + name && user == ns.Minted(name)
  {
    hide LocalpartOf, ServerOf, UserIdOk;
    IdFromParts(user);
    if name :| ':' !in ns.localpartPrefix + name && user == ns.Minted(name) {
      IdParts(ns.localpartPrefix + name, ns.serverName);
      assert ns.Minted(name) == "@" + (ns.localpartPrefix + name) + ":" + ns.serverName;
    }
    if ns.Manages(user) {
      var name := LocalpartOf(user)[|ns.localpartPrefix|..];
      assert LocalpartOf(user) == ns.localpartPrefix + name;
      assert ns.Minted(name) == "@" + (ns.localpartPrefix + name) + ":" + ns.serverName;
    }
  }

  class Server {
    const log: AuditLog
    var nextRequestId: nat
    var nextCallSeq: nat
    var pending: seq<PendingApproval>
    var recentCalls: seq<(string, nat)>
    var dailyUsage: map<string, Usage>
    var outcomes: map<string, nat>
    var tokensMetered: map<string, nat>
    var gauge: Option<nat>

    constructor (digest: Digest)
      ensures Snapshot() == INITIAL && log.digest == digest && fresh(log)
    {
      log := new AuditLog(digest);
      nextRequestId := 0;
      nextCallSeq := 0;
      pending := [];
      recentCalls := [];
      dailyUsage := map[];
      outcomes := map[];
      tokensMetered := map[];
      gauge := None;
    }

    ghost function Snapshot(): State
      reads this, log
    {
      State(nextRequestId, nextCallSeq, pending, log.column, recentCalls, dailyUsage, outcomes, tokensMetered, gauge)
    }

    method RecordOutcome(outcome: string)
      modifies this
      ensures Snapshot() == Recorded(old(Snapshot()), outcome)
    {
      outcomes := outcomes[outcome := (if outcome in outcomes then outcomes[outcome] else 0) + 1];
      gauge := Some(|pending|);
    }

    method IsRateLimited(agent: string, limitPerMin: nat, now: nat) returns (limited: bool)
      modifies this
      ensures (Snapshot(), limited) == RateChecked(old(Snapshot()), agent, limitPerMin, now)
    {
      if limitPerMin == 0 {
        return false;
      }
      var cutoff := if now < RATE_WINDOW_SECS then 0 else now - RATE_WINDOW_SECS;
      recentCalls := Kept(recentCalls, cutoff);
      var count := |TimesOf(recentCalls, agent)|;
      limited := count >= limitPerMin;
    }

    method NoteCall(agent: string, now: nat)
      modifies this
      ensures Snapshot() == CallNoted(old(Snapshot()), agent, now)
    {
      recentCalls := recentCalls + [(agent, now)];
    }

    /** daily_entry: the entry is inserted or rolled over before it is read. */
    method RollDailyEntry(agent: string, now: nat) returns (entry: Usage)
      modifies this
      ensures Snapshot() == Touched(old(Snapshot()), agent, now)
      ensures entry == DailyEntry(old(dailyUsage), agent, now) && agent in dailyUsage && dailyUsage[agent] == entry
    {
      var day := now / SECS_PER_DAY;
      if agent !in dailyUsage {
        dailyUsage := dailyUsage[agent := Usage(day, 0, 0)];
      }
      if dailyUsage[agent].day != day {
        dailyUsage := dailyUsage[agent := Usage(day, 0, 0)];
      }
      entry := dailyUsage[agent];
      assert dailyUsage == old(dailyUsage)[agent := entry];
    }

    method IsOverDailyBudget(agent: string, limit: nat, now: nat) returns (over: bool)
      modifies this
      ensures (Snapshot(), over) == DailyChecked(old(Snapshot()), agent, limit, now)
    {
      if limit == 0 {
        return false;
      }
      var entry := RollDailyEntry(agent, now);
      over := entry.calls >= limit;
    }

    method IsOverTokenBudget(agent: string, budget: U64, now: nat) returns (over: bool)
      modifies this
      ensures (Snapshot(), over) == TokensChecked(old(Snapshot()), agent, budget, now)
    {
      if budget == 0 {
        return false;
      }
      var entry := RollDailyEntry(agent, now);
      over := entry.tokens >= budget;
    }

    method NoteDailyCall(agent: string, now: nat)
      modifies this
      ensures Snapshot() == DailyCallNoted(old(Snapshot()), agent, now)
    {
      var entry := RollDailyEntry(agent, now);
      dailyUsage := dailyUsage[agent := entry.(calls := entry.calls + 1)];
      assert dailyUsage == old(dailyUsage)[agent := entry.(calls := entry.calls + 1)];
    }

    method NoteTokens(agent: string, tokens: U64, now: nat)
      modifies this
      ensures Snapshot() == TokensNoted(old(Snapshot()), agent, tokens, now)
    {
      var entry := RollDailyEntry(agent, now);
      var sum := if entry.tokens + tokens < U64_LIMIT then entry.tokens + tokens else U64_LIMIT - 1;
      dailyUsage := dailyUsage[agent := entry.(tokens := sum)];
      assert dailyUsage == old(dailyUsage)[agent := entry.(tokens := sum)];
    }

    method RefuseCall(actor: string, event: string, series: string)
      modifies this, log
      ensures Snapshot() == Refused(log.digest, old(Snapshot()), actor, event, series)
    {
      log.Append(actor, event);
      RecordOutcome(series);
    }

    /** What follows every execution. */
    method MeterExecution(call: ToolCall, run: ToolOutcome, now: nat)
      modifies this, log
      ensures Snapshot() == Ran(log.digest, old(Snapshot()), call, run, now)
    {
      hide Appended, ExecutedText, DailyEntry;
      NoteTokens(call.agent, run.tokens, now);
      log.Append(call.agent, ExecutedText(call.tool, run));
      tokensMetered := Bumped(tokensMetered, call.agent, run.tokens);
      RecordOutcome("executed");
    }

    /** The auto branch of mediate. */
    method RunAtOnce(call: ToolCall, run: ToolOutcome, now: nat) returns (r: Outcome)
      modifies this, log
      ensures Snapshot() == AutoRan(log.digest, old(Snapshot()), call, run, now)
      ensures var id := CallId(old(nextCallSeq));
        r == Executed([CallEvent(id, call.tool, call.args), ResultEvent(id, call.tool, run.ok, run.summary)])
    {
      hide Appended, Ran, CallId;
      var callId := CallId(nextCallSeq);
      nextCallSeq := nextCallSeq + 1;
      log.Append(call.agent, "auto_allowed: " + call.tool);
      var callEvent := CallEvent(callId, call.tool, call.args);
      MeterExecution(call, run, now);
      r := Executed([callEvent, ResultEvent(callId, call.tool, run.ok, run.summary)]);
    }

    /** The review branch of mediate. */
    method QueueForReview(call: ToolCall) returns (r: Outcome)
      modifies this, log
      ensures Snapshot() == Queued(log.digest, old(Snapshot()), call)
      ensures r == AwaitingApproval(old(nextRequestId), CallEvent(CallId(old(nextCallSeq)), call.tool, call.args))
    {
      hide Appended, CallId;
      var callId := CallId(nextCallSeq);
      nextCallSeq := nextCallSeq + 1;
      var requestId := nextRequestId;
      nextRequestId := nextRequestId + 1;
      log.Append(call.agent, "approval_requested: " + call.tool);
      var callEvent := CallEvent(callId, call.tool, call.args);
      pending := pending + [PendingApproval(requestId, callId, call)];
      RecordOutcome("review");
      r := AwaitingApproval(requestId, callEvent);
    }

    /** mediate; `t` holds the clock readings and `run` what the executor returns if it is called. */
    method Mediate(call: ToolCall, limits: Limits, actionClass: ActionClass, t: Ticks, run: ToolOutcome) returns (r: Outcome)
      modifies this, log
      ensures Snapshot() == Mediated(log.digest, old(Snapshot()), call, limits, actionClass, t, run)
      ensures r == MediationOutcome(old(Snapshot()), call, limits, actionClass, t, run)
    {
      hide Refused, AutoRan, Queued, DailyEntry, RateChecked, DailyChecked, TokensChecked, CallId;
      ghost var g := Snapshot();
      if actionClass == Forbidden {
        RefuseCall(call.agent, "denied_by_scope: " + call.tool + " in " + call.room, "denied_scope");
        return Denied(RefusalReason(OutOfScope, call, limits), []);
      }
      var limited := IsRateLimited(call.agent, limits.perMinute, t.rate);
      if limited {
        RefuseCall(call.agent, "rate_limited: " + call.tool, "rate_limited");
        return Denied(RefusalReason(RateLimited, call, limits), []);
      }
      var overCalls := IsOverDailyBudget(call.agent, limits.callsPerDay, t.daily);
      if overCalls {
        RefuseCall(call.agent, "daily_budget_exceeded: " + call.tool, "budget_exceeded");
        return Denied(RefusalReason(OverCalls, call, limits), []);
      }
      var overTokens := IsOverTokenBudget(call.agent, limits.tokensPerDay, t.tokens);
      if overTokens {
        RefuseCall(call.agent, "token_budget_exceeded: " + call.tool, "token_budget_exceeded");
        return Denied(RefusalReason(OverTokens, call, limits), []);
      }
      ChecksKeepIds(g, call.agent, limits, actionClass, t);
      NoteCall(call.agent, t.note);
      NoteDailyCall(call.agent, t.noteDaily);
      if actionClass == Auto {
        r := RunAtOnce(call, run, t.noteTokens);
      } else {
        r := QueueForReview(call);
      }
    }

    /** resolve; None stands for the unknown-request error. */
    method Resolve(requestId: nat, approved: bool, decider: string, run: ToolOutcome, now: nat) returns (r: Option<Outcome>)
      modifies this, log
      ensures Snapshot() == Resolved(log.digest, old(Snapshot()), requestId, approved, decider, run, now)
      ensures r == ResolutionOutcome(old(Snapshot()), requestId, approved, decider, run)
    {
      hide Appended, Ran, Recorded;
      var pos := Position(pending, requestId);
      if pos.None? {
        return None;
      }
      var entry := pending[pos.value];
      pending := pending[..pos.value] + pending[pos.value + 1..];
      var receipt := ApprovalEvent(entry.callId, decider, approved);
      if approved {
        log.Append(entry.call.agent, "approved_by " + decider + ": " + entry.call.tool);
        MeterExecution(entry.call, run, now);
        r := Some(Executed([receipt, ResultEvent(entry.callId, entry.call.tool, run.ok, run.summary)]));
      } else {
        RefuseCall(entry.call.agent, "denied_by " + decider + ": " + entry.call.tool, "denied_human");
        r := Some(Denied(entry.call.tool + " denied by " + decider, [receipt]));
      }
    }

    method Handle(grant: Grant, call: ToolCall, t: Ticks, run: ToolOutcome) returns (r: Outcome)
      modifies this, log
      ensures var c := grant.Classify(call.tool, call.room);
        && Snapshot() == Mediated(log.digest, old(Snapshot()), call, grant.limits, c, t, run)
        && r == MediationOutcome(old(Snapshot()), call, grant.limits, c, t, run)
    {
      hide Mediated, MediationOutcome;
      r := Mediate(call, grant.limits, grant.Classify(call.tool, call.room), t, run);
    }

    /** handle_managed: a caller outside the service's namespace is refused before mediation. */
    method HandleManaged(ns: AgentNamespace, grant: Grant, call: ToolCall, t: Ticks, run: ToolOutcome) returns (r: Outcome)
      modifies this, log
      ensures var c := grant.Classify(call.tool, call.room);
        if ns.Manages(call.agent) then
          && Snapshot() == Mediated(log.digest, old(Snapshot()), call, grant.limits, c, t, run)
          && r == MediationOutcome(old(Snapshot()), call, grant.limits, c, t, run)
        else
          && Snapshot() == RefusedEarly(log.digest, old(Snapshot()), UnmanagedAgent(call.agent))
          && r == Denied(call.agent + " is not a managed agent identity", [])
    {
      hide Mediated, MediationOutcome, Refused;
      if !ns.Manages(call.agent) {
        RefuseCall(call.agent, "unmanaged_agent: " + call.agent, "unmanaged");
        return Denied(call.agent + " is not a managed agent identity", []);
      }
      r := Handle(grant, call, t, run);
    }

    method HandleInRoom(roster: map<string, Grant>, call: ToolCall, t: Ticks, run: ToolOutcome) returns (r: Option<Outcome>)
      modifies this, log
      ensures call.agent !in roster ==> r == None
      ensures call.agent !in roster ==> Snapshot() == RefusedEarly(log.digest, old(Snapshot()), UnknownAgent(call.agent))
      ensures call.agent in roster ==> var grant := roster[call.agent];
        var c := grant.Classify(call.tool, call.room);
        && Snapshot() == Mediated(log.digest, old(Snapshot()), call, grant.limits, c, t, run)
        && r == Some(MediationOutcome(old(Snapshot()), call, grant.limits, c, t, run))
    {
      hide Mediated, MediationOutcome, Refused;
      if call.agent !in roster {
        RefuseCall(call.agent, "unknown_agent: " + call.agent, "unknown_agent");
        return None;
      }
      var outcome := Handle(roster[call.agent], call, t, run);
      r := Some(outcome);
    }

    /**
     handle_delegated. A delegated call has exactly the outcome the worker's own call would have:
     the delegator adds one audit entry and no privilege.
     */
    method HandleDelegated(roster: map<string, Grant>, orchestrator: string, call: ToolCall, t: Ticks, run: ToolOutcome)
      returns (r: Option<Outcome>)
      modifies this, log
      ensures orchestrator !in roster || call.agent !in roster ==> r == None
      ensures orchestrator !in roster ==>
        Snapshot() == RefusedEarly(log.digest, old(Snapshot()), UnknownAgent(orchestrator))
      ensures orchestrator in roster && call.agent !in roster ==>
        Snapshot() == RefusedEarly(log.digest, old(Snapshot()), UnknownAgent(call.agent))
      ensures orchestrator in roster && call.agent in roster ==> var grant := roster[call.agent];
        var c := grant.Classify(call.tool, call.room);
        var noted := Audited(log.digest, old(Snapshot()), call.agent, "delegated_by " + orchestrator + ": " + call.tool);
        && Snapshot() == Mediated(log.digest, noted, call, grant.limits, c, t, run)
        && r == Some(MediationOutcome(old(Snapshot()), call, grant.limits, c, t, run))
    {
      hide Mediated, MediationOutcome, Refused, Appended;
      ghost var g := Snapshot();
      if orchestrator !in roster {
        RefuseCall(orchestrator, "unknown_agent: " + orchestrator, "unknown_agent");
        return None;
      }
      if call.agent !in roster {
        RefuseCall(call.agent, "unknown_agent: " + call.agent, "unknown_agent");
        return None;
      }
      log.Append(call.agent, "delegated_by " + orchestrator + ": " + call.tool);
      var grant := roster[call.agent];
      OutcomeIgnoresLog(g, Snapshot(), call, grant.limits, grant.Classify(call.tool, call.room), t, run);
      var outcome := Handle(grant, call, t, run);
      r := Some(outcome);
    }

    /** handle_with_policy: the policy denies the call or tightens its class; a forbidden tool never reaches it. */
    method HandleWithPolicy(grant: Grant, policy: PolicySet, call: ToolCall, t: Ticks, run: ToolOutcome) returns (r: Outcome)
      modifies this, log
      ensures var base := grant.Classify(call.tool, call.room);
        var effect := policy.Evaluate(call);
        if base != Forbidden && effect == Deny then
          && r == Denied(call.tool + " denied by policy in " + call.room, [])
          && Snapshot() == RefusedEarly(log.digest, old(Snapshot()), PolicyDenied(call))
        else
          && Snapshot() == Mediated(log.digest, old(Snapshot()), call, grant.limits, Refine(base, effect), t, run)
          && r == MediationOutcome(old(Snapshot()), call, grant.limits, Refine(base, effect), t, run)
    {
      hide Mediated, MediationOutcome, Refused;
      var base := grant.Classify(call.tool, call.room);
      if base == Forbidden {
        r := Mediate(call, grant.limits, Forbidden, t, run);
        return;
      }
      var effect := policy.Evaluate(call);
      if effect == Deny {
        RefuseCall(call.agent, "policy_denied: " + call.tool + " in " + call.room, "denied_policy");
        return Denied(call.tool + " denied by policy in " + call.room, []);
      }
      r := Mediate(call, grant.limits, Refine(base, effect), t, run);
    }
  }

  lemma ChecksKeepIds(g: State, agent: string, limits: Limits, actionClass: ActionClass, t: Ticks)
    ensures var g' := Checked(g, agent, limits, actionClass, t).0;
      g'.nextCallSeq == g.nextCallSeq && g'.nextRequestId == g.nextRequestId
  {
  }

  /** What a mediation answers does not depend on the audit log. */
  lemma OutcomeIgnoresLog(g: State, g': State, call: ToolCall, limits: Limits, actionClass: ActionClass, t: Ticks, run: ToolOutcome)
    requires g' == g.(log := g'.log)
    ensures MediationOutcome(g', call, limits, actionClass, t, run) == MediationOutcome(g, call, limits, actionClass, t, run)
  {
    hide Kept, TimesOf, DailyEntry;
  }
}
