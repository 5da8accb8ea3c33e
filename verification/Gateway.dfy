/**
 The agent gateway as a state machine: what mediating a call and settling an approval do to the
 whole gateway state. Clock readings and the executor's results are inputs.
 */
module Gateway {
  import opened Audit
  import opened Columns
  import opened Orders
  import opened Text

  const RATE_WINDOW_SECS: nat := 60
  const SECS_PER_DAY: nat := 86_400

  datatype ActionClass = Auto | Review | Forbidden

  datatype ToolCall = ToolCall(agent: string, room: string, tool: string, args: string)

  datatype ToolOutcome = ToolOutcome(ok: bool, summary: string, tokens: U64)

  /** The limits of a grant; zero means unlimited. */
  datatype Limits = Limits(perMinute: nat, callsPerDay: nat, tokensPerDay: U64)

  datatype PendingApproval = PendingApproval(requestId: nat, callId: string, call: ToolCall)

  datatype Usage = Usage(day: nat, calls: nat, tokens: U64)

  /** One clock reading for each place mediation reads the clock, in order. */
  datatype Ticks = Ticks(rate: nat, daily: nat, tokens: nat, note: nat, noteDaily: nat, noteTokens: nat) {
    predicate InOrder(now: nat) {
      now <= rate <= daily <= tokens <= note <= noteDaily <= noteTokens
    }
  }

  datatype State = State(
    nextRequestId: nat,
    nextCallSeq: nat,
    pending: seq<PendingApproval>,
    log: Column,
    recent: seq<(string, nat)>,
    usage: map<string, Usage>,
    outcomes: map<string, nat>,
    tokensMetered: map<string, nat>,
    gauge: Option<nat>)

  const INITIAL := State(0, 0, [], map[], [], map[], map[], map[], None)

  datatype ReflectedEvent =
    | CallEvent(callId: string, tool: string, args: string)
    | ResultEvent(callId: string, tool: string, ok: bool, summary: string)
    | ApprovalEvent(callId: string, decidedBy: string, approved: bool)

  datatype Outcome =
    | Executed(events: seq<ReflectedEvent>)
    | AwaitingApproval(requestId: nat, event: ReflectedEvent)
    | Denied(reason: string, receipts: seq<ReflectedEvent>)

  // ---------------------------------------------------------------------------
  // Metrics and the audit log
  // ---------------------------------------------------------------------------

  function Counter(counters: map<string, nat>, series: string): nat {
    if series in counters then counters[series] else 0
  }

  function Bumped(counters: map<string, nat>, series: string, n: nat): map<string, nat> {
    counters[series := Counter(counters, series) + n]
  }

  /** record_outcome: count, and refresh the pending gauge. */
  function Recorded(g: State, outcome: string): State {
    g.(outcomes := Bumped(g.outcomes, outcome, 1), gauge := Some(|g.pending|))
  }

  function Audited(digest: Digest, g: State, actor: string, event: string): State {
    g.(log := Appended(digest, g.log, actor, event))
  }

  function Refused(digest: Digest, g: State, actor: string, event: string, series: string): State {
    Recorded(Audited(digest, g, actor, event), series)
  }

  // ---------------------------------------------------------------------------
  // Rate limit and daily budgets
  // ---------------------------------------------------------------------------

  function Cutoff(now: nat): nat {
    if now < RATE_WINDOW_SECS then 0 else now - RATE_WINDOW_SECS
  }

  /** `retain(|ts| ts > cutoff)` */
  function Kept(recent: seq<(string, nat)>, cutoff: nat): seq<(string, nat)> {
    if recent == [] then []
    else if recent[0].1 > cutoff then [recent[0]] + Kept(recent[1..], cutoff)
    else Kept(recent[1..], cutoff)
  }

  /** The times recorded for one agent. */
  function TimesOf(recent: seq<(string, nat)>, agent: string): seq<nat> {
    if recent == [] then []
    else if recent[0].0 == agent then [recent[0].1] + TimesOf(recent[1..], agent)
    else TimesOf(recent[1..], agent)
  }

  /** is_rate_limited; pruning is its side effect. */
  function RateChecked(g: State, agent: string, limit: nat, now: nat): (State, bool) {
    if limit == 0 then (g, false)
    else
      var kept := Kept(g.recent, Cutoff(now));
      (g.(recent := kept), |TimesOf(kept, agent)| >= limit)
  }

  function Day(now: nat): nat {
    now / SECS_PER_DAY
  }

  /** daily_entry: today's usage, zeroed if the one recorded is another day's. */
  function DailyEntry(usage: map<string, Usage>, agent: string, now: nat): Usage {
    if agent in usage && usage[agent].day == Day(now) then usage[agent] else Usage(Day(now), 0, 0)
  }

  function Touched(g: State, agent: string, now: nat): State {
    g.(usage := g.usage[agent := DailyEntry(g.usage, agent, now)])
  }

  function DailyChecked(g: State, agent: string, limit: nat, now: nat): (State, bool) {
    if limit == 0 then (g, false)
    else (Touched(g, agent, now), DailyEntry(g.usage, agent, now).calls >= limit)
  }

  function TokensChecked(g: State, agent: string, budget: U64, now: nat): (State, bool) {
    if budget == 0 then (g, false)
    else (Touched(g, agent, now), DailyEntry(g.usage, agent, now).tokens >= budget)
  }

  function CallNoted(g: State, agent: string, now: nat): State {
    g.(recent := g.recent + [(agent, now)])
  }

  function DailyCallNoted(g: State, agent: string, now: nat): State {
    var entry := DailyEntry(g.usage, agent, now);
    g.(usage := g.usage[agent := entry.(calls := entry.calls + 1)])
  }

  function SaturatingAdd(a: U64, b: U64): U64 {
    if a + b < U64_LIMIT then a + b else U64_LIMIT - 1
  }

  function TokensNoted(g: State, agent: string, n: U64, now: nat): State {
    var entry := DailyEntry(g.usage, agent, now);
    g.(usage := g.usage[agent := entry.(tokens := SaturatingAdd(entry.tokens, n))])
  }

  // ---------------------------------------------------------------------------
  // mediate and resolve
  // ---------------------------------------------------------------------------

  datatype Decision = Admitted | OutOfScope | RateLimited | OverCalls | OverTokens

  /** The checks of `mediate`, in order; a forbidden call consumes no budget. */
  function Checked(g: State, agent: string, limits: Limits, actionClass: ActionClass, t: Ticks): (State, Decision) {
    if actionClass == Forbidden then (g, OutOfScope)
    else
      var (g1, limited) := RateChecked(g, agent, limits.perMinute, t.rate);
      if limited then (g1, RateLimited)
      else
        var (g2, overCalls) := DailyChecked(g1, agent, limits.callsPerDay, t.daily);
        if overCalls then (g2, OverCalls)
        else
          var (g3, overTokens) := TokensChecked(g2, agent, limits.tokensPerDay, t.tokens);
          if overTokens then (g3, OverTokens) else (g3, Decision.Admitted)
  }

  function CallId(n: nat): string {
    "call-" + Decimal(n)
  }

  function BoolText(b: bool): string {
    if b then "true" else "false"
  }

  function ExecutedText(tool: string, run: ToolOutcome): string {
    "executed: " + tool + " ok=" + BoolText(run.ok) + " tokens=" + Decimal(run.tokens)
  }

  /** What follows an execution: meter, audit, count. */
  function Ran(digest: Digest, g: State, call: ToolCall, run: ToolOutcome, now: nat): State {
    var g1 := Audited(digest, TokensNoted(g, call.agent, run.tokens, now), call.agent, ExecutedText(call.tool, run));
    Recorded(g1.(tokensMetered := Bumped(g1.tokensMetered, call.agent, run.tokens)), "executed")
  }

  /** The state once a call is admitted and noted, before it runs or is queued. */
  function Admission(g: State, agent: string, t: Ticks): State {
    DailyCallNoted(CallNoted(g, agent, t.note), agent, t.noteDaily)
  }

  function AutoRan(digest: Digest, g: State, call: ToolCall, run: ToolOutcome, now: nat): State {
    var g1 := g.(nextCallSeq := g.nextCallSeq + 1);
    Ran(digest, Audited(digest, g1, call.agent, "auto_allowed: " + call.tool), call, run, now)
  }

  function Queued(digest: Digest, g: State, call: ToolCall): State {
    var g1 := g.(nextCallSeq := g.nextCallSeq + 1, nextRequestId := g.nextRequestId + 1);
    var g2 := Audited(digest, g1, call.agent, "approval_requested: " + call.tool);
    var entry := PendingApproval(g.nextRequestId, CallId(g.nextCallSeq), call);
    Recorded(g2.(pending := g2.pending + [entry]), "review")
  }

  function Mediated(digest: Digest, g: State, call: ToolCall, limits: Limits, actionClass: ActionClass, t: Ticks, run: ToolOutcome): State {
    var (g1, decision) := Checked(g, call.agent, limits, actionClass, t);
    match decision
    case OutOfScope =>
      Refused(digest, g1, call.agent, "denied_by_scope: " + call.tool + " in " + call.room, "denied_scope")
    case RateLimited => Refused(digest, g1, call.agent, "rate_limited: " + call.tool, "rate_limited")
    case OverCalls => Refused(digest, g1, call.agent, "daily_budget_exceeded: " + call.tool, "budget_exceeded")
    case OverTokens => Refused(digest, g1, call.agent, "token_budget_exceeded: " + call.tool, "token_budget_exceeded")
    case Admitted =>
      var g2 := Admission(g1, call.agent, t);
      if actionClass == Auto then AutoRan(digest, g2, call, run, t.noteTokens) else Queued(digest, g2, call)
  }

  /** What a refused caller is told. */
  function RefusalReason(decision: Decision, call: ToolCall, limits: Limits): string {
    match decision
    case OutOfScope => call.tool + " is not permitted in " + call.room
    case RateLimited => "rate limit of " + Decimal(limits.perMinute) + "/min exceeded for " + call.agent
    case OverCalls => "daily budget of " + Decimal(limits.callsPerDay) + " calls exceeded for " + call.agent
    case OverTokens => "daily token budget of " + Decimal(limits.tokensPerDay) + " exceeded for " + call.agent
    case Admitted => ""
  }

  function MediationOutcome(g: State, call: ToolCall, limits: Limits, actionClass: ActionClass, t: Ticks, run: ToolOutcome): Outcome {
    var callEvent := CallEvent(CallId(g.nextCallSeq), call.tool, call.args);
    var decision := Checked(g, call.agent, limits, actionClass, t).1;
    if decision != Decision.Admitted then Denied(RefusalReason(decision, call, limits), [])
    else if actionClass == Auto then
      Executed([callEvent, ResultEvent(CallId(g.nextCallSeq), call.tool, run.ok, run.summary)])
    else AwaitingApproval(g.nextRequestId, callEvent)
  }

  /** The position of a request in the queue. */
  function Position(pending: seq<PendingApproval>, requestId: nat): (r: Option<nat>)
    ensures r.Some? ==> r.value < |pending| && pending[r.value].requestId == requestId
    ensures r.Some? ==> forall i | 0 <= i < r.value :: pending[i].requestId != requestId
    ensures r == None ==> forall p | p in pending :: p.requestId != requestId
  {
    if pending == [] then None
    else if pending[0].requestId == requestId then Some(0)
    else
      match Position(pending[1..], requestId)
      case Some(i) => Some(i + 1)
      case None => None
  }

  function Without<T>(xs: seq<T>, i: nat): seq<T>
    requires i < |xs|
  {
    xs[..i] + xs[i + 1..]
  }

  function Approved(digest: Digest, g: State, call: ToolCall, decider: string, run: ToolOutcome, now: nat): State {
    Ran(digest, Audited(digest, g, call.agent, "approved_by " + decider + ": " + call.tool), call, run, now)
  }

  function DeniedByHuman(digest: Digest, g: State, call: ToolCall, decider: string): State {
    Refused(digest, g, call.agent, "denied_by " + decider + ": " + call.tool, "denied_human")
  }

  function Resolved(digest: Digest, g: State, requestId: nat, approved: bool, decider: string, run: ToolOutcome, now: nat): State {
    match Position(g.pending, requestId)
    case None => g
    case Some(i) =>
      var call := g.pending[i].call;
      var g1 := g.(pending := Without(g.pending, i));
      if approved then Approved(digest, g1, call, decider, run, now) else DeniedByHuman(digest, g1, call, decider)
  }

  function ResolutionOutcome(g: State, requestId: nat, approved: bool, decider: string, run: ToolOutcome): Option<Outcome> {
    match Position(g.pending, requestId)
    case None => None
    case Some(i) =>
      var p := g.pending[i];
      var receipt := ApprovalEvent(p.callId, decider, approved);
      if approved then Some(Executed([receipt, ResultEvent(p.callId, p.call.tool, run.ok, run.summary)]))
      else Some(Denied(p.call.tool + " denied by " + decider, [receipt]))
  }

  // ---------------------------------------------------------------------------
  // Runs
  // ---------------------------------------------------------------------------

  /** What refuses a call before mediation. */
  datatype Refusal = UnknownAgent(agent: string) | UnmanagedAgent(agent: string) | PolicyDenied(call: ToolCall)

  function RefusedEarly(digest: Digest, g: State, why: Refusal): State {
    match why
    case UnknownAgent(agent) => Refused(digest, g, agent, "unknown_agent: " + agent, "unknown_agent")
    case UnmanagedAgent(agent) => Refused(digest, g, agent, "unmanaged_agent: " + agent, "unmanaged")
    case PolicyDenied(call) =>
      Refused(digest, g, call.agent, "policy_denied: " + call.tool + " in " + call.room, "denied_policy")
  }

  datatype Step =
    | Mediate(call: ToolCall, limits: Limits, actionClass: ActionClass, ticks: Ticks, run: ToolOutcome)
    | Resolve(requestId: nat, approved: bool, decider: string, tick: nat, run: ToolOutcome)
    | Refuse(why: Refusal)
    | Note(actor: string, event: string)

  function Next(digest: Digest, g: State, step: Step): State {
    match step
    case Mediate(call, limits, actionClass, ticks, run) => Mediated(digest, g, call, limits, actionClass, ticks, run)
    case Resolve(requestId, approved, decider, tick, run) => Resolved(digest, g, requestId, approved, decider, run, tick)
    case Refuse(why) => RefusedEarly(digest, g, why)
    case Note(actor, event) => Audited(digest, g, actor, event)
  }

  /** What a step does that the laws below speak of. */
  datatype Happening =
    | CallAdmitted(agent: string, note: nat, noteDaily: nat)
    | AutoExecuted(call: ToolCall, at: nat, tokens: U64)
    | ReviewQueued(requestId: nat, call: ToolCall)
    | ReviewApproved(requestId: nat, call: ToolCall, at: nat, tokens: U64)
    | ReviewDenied(requestId: nat, call: ToolCall)

  function Happenings(g: State, step: Step): seq<Happening> {
    match step
    case Mediate(call, limits, actionClass, t, run) =>
      if Checked(g, call.agent, limits, actionClass, t).1 != Decision.Admitted then []
      else
        var admitted := CallAdmitted(call.agent, t.note, t.noteDaily);
        if actionClass == Auto then [admitted, AutoExecuted(call, t.noteTokens, run.tokens)]
        else [admitted, ReviewQueued(g.nextRequestId, call)]
    case Resolve(requestId, approved, decider, tick, run) =>
      (match Position(g.pending, requestId)
       case None => []
       case Some(i) =>
         if approved then [ReviewApproved(requestId, g.pending[i].call, tick, run.tokens)]
         else [ReviewDenied(requestId, g.pending[i].call)])
    case _ => []
  }

  datatype World = World(state: State, history: seq<Happening>)

  const BEGINNING := World(INITIAL, [])

  function After(digest: Digest, w: World, step: Step): World {
    World(Next(digest, w.state, step), w.history + Happenings(w.state, step))
  }

  function Run(digest: Digest, w: World, steps: seq<Step>): World
    decreases |steps|
  {
    if steps == [] then w else Run(digest, After(digest, w, steps[0]), steps[1..])
  }

  /** The reading a step leaves the clock at. */
  function LastTick(now: nat, step: Step): nat {
    match step
    case Mediate(_, _, _, ticks, _) => ticks.noteTokens
    case Resolve(_, _, _, tick, _) => tick
    case _ => now
  }

  predicate TickOk(now: nat, step: Step) {
    match step
    case Mediate(_, _, _, ticks, _) => ticks.InOrder(now)
    case Resolve(_, _, _, tick, _) => now <= tick
    case _ => true
  }

  /** The clock never goes back, from `now` on. */
  predicate ClockRuns(now: nat, steps: seq<Step>)
    decreases |steps|
  {
    steps != [] ==> TickOk(now, steps[0]) && ClockRuns(LastTick(now, steps[0]), steps[1..])
  }
}
