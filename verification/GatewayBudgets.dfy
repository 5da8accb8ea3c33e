/**
 The daily budgets over the whole history: calls admitted and tokens spent per agent and day, with
 a separate clock reading, possibly on another day, for each check and each record.
 */
module GatewayBudgets {
  import opened Audit
  import opened Columns
  import opened Gateway
  import opened GatewayLedger
  import opened Orders
  import opened Text

  // ---------------------------------------------------------------------------
  // What happened on a day
  // ---------------------------------------------------------------------------

  /** The reading falls on the day, of 86,400 seconds. */
  predicate FallsOn(at: nat, day: int) {
    86_400 * day <= at < 86_400 * (day + 1)
  }

  lemma FallsOnIs(at: nat)
    ensures forall day: int :: FallsOn(at, day) <==> Day(at) == day
  {
  }

  function CallOn(x: Happening, agent: string, day: int): nat {
    if x.CallAdmitted? && x.agent == agent && FallsOn(x.noteDaily, day) then 1 else 0
  }

  function Spent(x: Happening, agent: string, day: int): nat {
    match x
    case AutoExecuted(call, at, tokens) => if call.agent == agent && FallsOn(at, day) then tokens else 0
    case ReviewApproved(_, call, at, tokens) => if call.agent == agent && FallsOn(at, day) then tokens else 0
    case _ => 0
  }

  function Approved(x: Happening, agent: string, day: int): nat {
    if x.ReviewApproved? then Spent(x, agent, day) else 0
  }

  /** Admitted calls of the agent whose daily record fell on `day`. */
  function DayCalls(h: seq<Happening>, agent: string, day: int): nat {
    if h == [] then 0 else DayCalls(h[..|h| - 1], agent, day) + CallOn(h[|h| - 1], agent, day)
  }

  /** Tokens of the agent's executions recorded on `day`. */
  function DaySpent(h: seq<Happening>, agent: string, day: int): nat {
    if h == [] then 0 else DaySpent(h[..|h| - 1], agent, day) + Spent(h[|h| - 1], agent, day)
  }

  /** The part of it that a human approved. */
  function DayApproved(h: seq<Happening>, agent: string, day: int): nat {
    if h == [] then 0 else DayApproved(h[..|h| - 1], agent, day) + Approved(h[|h| - 1], agent, day)
  }

  lemma DaySnoc(h: seq<Happening>, x: Happening, agent: string, day: int)
    ensures DayCalls(h + [x], agent, day) == DayCalls(h, agent, day) + CallOn(x, agent, day)
    ensures DaySpent(h + [x], agent, day) == DaySpent(h, agent, day) + Spent(x, agent, day)
    ensures DayApproved(h + [x], agent, day) == DayApproved(h, agent, day) + Approved(x, agent, day)
  {
    assert (h + [x])[..|h|] == h;
  }

  // ---------------------------------------------------------------------------
  // The usage table counts exactly what happened on its day
  // ---------------------------------------------------------------------------

  function Capped(n: nat): U64 {
    if n < U64_LIMIT then n else U64_LIMIT - 1
  }

  predicate EntryCounts(u: Usage, h: seq<Happening>, agent: string) {
    u.calls == DayCalls(h, agent, u.day) && u.tokens == Capped(DaySpent(h, agent, u.day))
  }

  predicate Idle(h: seq<Happening>, agent: string, day: int) {
    DayCalls(h, agent, day) == 0 && DaySpent(h, agent, day) == 0
  }

  /** The agent's entry counts its own day, which is not in the future, and nothing happened after it. */
  ghost predicate Tracks(usage: map<string, Usage>, h: seq<Happening>, agent: string, now: nat) {
    if agent in usage then
      && usage[agent].day <= Day(now)
      && EntryCounts(usage[agent], h, agent)
      && forall d :: usage[agent].day < d ==> Idle(h, agent, d)
    else forall d :: Idle(h, agent, d)
  }

  lemma DayOrder(a: nat, b: nat)
    requires a <= b
    ensures Day(a) <= Day(b)
  {
  }

  /** Rolling over zeroes the entry exactly when its day is past, and that day really is idle. */
  lemma EntryOfDay(usage: map<string, Usage>, h: seq<Happening>, agent: string, now: nat, later: nat)
    requires Tracks(usage, h, agent, now) && now <= later
    ensures var u := DailyEntry(usage, agent, later);
      && u.day == Day(later) && EntryCounts(u, h, agent)
      && Tracks(usage[agent := u], h, agent, later)
    ensures forall d | d > Day(later) :: Idle(h, agent, d)
  {
    hide Day, DayCalls, DaySpent;
    DayOrder(now, later);
    if agent !in usage || usage[agent].day < Day(later) {
      assert Idle(h, agent, Day(later));
    }
  }

  lemma OthersTrack(usage: map<string, Usage>, h: seq<Happening>, agent: string, now: nat, later: nat, other: string, u: Usage)
    requires Tracks(usage, h, agent, now) && now <= later && other != agent
    ensures Tracks(usage[other := u], h, agent, later)
  {
    hide Day, DayCalls, DaySpent;
    DayOrder(now, later);
  }

  /** Touching an entry, of this agent or another, keeps the count. */
  lemma TouchTracks(g: State, h: seq<Happening>, agent: string, who: string, now: nat, later: nat)
    requires Tracks(g.usage, h, agent, now) && now <= later
    ensures Tracks(Touched(g, who, later).usage, h, agent, later)
  {
    hide Tracks, DailyEntry;
    if who == agent {
      EntryOfDay(g.usage, h, agent, now, later);
    } else {
      OthersTrack(g.usage, h, agent, now, later, who, DailyEntry(g.usage, who, later));
    }
  }

  lemma LaterTracks(usage: map<string, Usage>, h: seq<Happening>, agent: string, now: nat, later: nat)
    requires Tracks(usage, h, agent, now) && now <= later
    ensures Tracks(usage, h, agent, later)
  {
    hide Day, DayCalls, DaySpent;
    DayOrder(now, later);
  }

  /** Recording a happening of another agent, or one that counts nothing. */
  lemma ForeignTracks(usage: map<string, Usage>, h: seq<Happening>, x: Happening, agent: string, now: nat)
    requires Tracks(usage, h, agent, now)
    requires forall d :: CallOn(x, agent, d) == 0 && Spent(x, agent, d) == 0
    ensures Tracks(usage, h + [x], agent, now)
  {
    hide Day, DayCalls, DaySpent, CallOn, Spent;
    forall d ensures Idle(h + [x], agent, d) <==> Idle(h, agent, d) {
      DaySnoc(h, x, agent, d);
    }
    if agent in usage {
      DaySnoc(h, x, agent, usage[agent].day);
    }
  }

  function WithCall(u: Usage): Usage {
    u.(calls := u.calls + 1)
  }

  function WithTokens(u: Usage, n: U64): Usage {
    u.(tokens := SaturatingAdd(u.tokens, n))
  }

  /** Recording a happening of the agent's own, on the day of the entry just rolled over. */
  lemma OwnTracks(usage: map<string, Usage>, h: seq<Happening>, x: Happening, agent: string, later: nat, u: Usage, u': Usage)
    requires u.day == u'.day == Day(later) && EntryCounts(u, h, agent) && forall d | d > Day(later) :: Idle(h, agent, d)
    requires forall d | d != Day(later) :: CallOn(x, agent, d) == 0 && Spent(x, agent, d) == 0
    requires u'.calls == u.calls + CallOn(x, agent, Day(later))
    requires u'.tokens == Capped(u.tokens + Spent(x, agent, Day(later)))
    ensures Tracks(usage[agent := u'], h + [x], agent, later)
  {
    hide Day, DayCalls, DaySpent, CallOn, Spent;
    DaySnoc(h, x, agent, Day(later));
    forall d | d > Day(later) ensures Idle(h + [x], agent, d) {
      DaySnoc(h, x, agent, d);
      assert Idle(h, agent, d);
    }
  }

  lemma CallTracks(usage: map<string, Usage>, h: seq<Happening>, agent: string, who: string, note: nat, now: nat, later: nat)
    requires Tracks(usage, h, agent, now) && now <= later
    ensures var u := DailyEntry(usage, who, later);
      Tracks(usage[who := WithCall(u)], h + [CallAdmitted(who, note, later)], agent, later)
  {
    hide Tracks, DailyEntry, Day, EntryCounts, Idle, FallsOn;
    FallsOnIs(later);
    var x := CallAdmitted(who, note, later);
    var u := DailyEntry(usage, who, later);
    if who == agent {
      EntryOfDay(usage, h, agent, now, later);
      OwnTracks(usage, h, x, agent, later, u, WithCall(u));
    } else {
      OthersTrack(usage, h, agent, now, later, who, WithCall(u));
      ForeignTracks(usage[who := WithCall(u)], h, x, agent, later);
    }
  }

  /** An execution of `who` costing `n`, recorded at `at`. */
  predicate Execution(x: Happening, who: string, at: nat, n: U64) {
    (x.AutoExecuted? || x.ReviewApproved?) && x.call.agent == who && x.at == at && x.tokens == n
  }

  lemma SpendTracks(usage: map<string, Usage>, h: seq<Happening>, x: Happening, agent: string, who: string, n: U64, now: nat, later: nat)
    requires Tracks(usage, h, agent, now) && now <= later && Execution(x, who, later, n)
    ensures var u := DailyEntry(usage, who, later);
      Tracks(usage[who := WithTokens(u, n)], h + [x], agent, later)
  {
    hide Tracks, DailyEntry, Day, EntryCounts, Idle, FallsOn;
    FallsOnIs(later);
    var u := DailyEntry(usage, who, later);
    if who == agent {
      EntryOfDay(usage, h, agent, now, later);
      OwnTracks(usage, h, x, agent, later, u, WithTokens(u, n));
    } else {
      OthersTrack(usage, h, agent, now, later, who, WithTokens(u, n));
      ForeignTracks(usage[who := WithTokens(u, n)], h, x, agent, later);
    }
  }

  // ---------------------------------------------------------------------------
  // Steps
  // ---------------------------------------------------------------------------

  ghost predicate CallsWithin(h: seq<Happening>, agent: string, limit: nat) {
    forall d :: DayCalls(h, agent, d) <= limit
  }

  /** Below the budget and one execution's cost, except for what humans approved. */
  ghost predicate SpentWithin(h: seq<Happening>, agent: string, budget: nat, cost: nat) {
    forall d :: DaySpent(h, agent, d) < budget + cost + DayApproved(h, agent, d)
  }

  /** What the checks let through is within budget on the day of the check. */
  lemma CheckedBudget(g: State, h: seq<Happening>, agent: string, who: string, limits: Limits, actionClass: ActionClass,
                      t: Ticks, now: nat)
    requires Tracks(g.usage, h, agent, now) && t.InOrder(now)
    ensures var (g', decision) := Checked(g, who, limits, actionClass, t);
      && Tracks(g'.usage, h, agent, t.tokens)
      && (decision == Decision.Admitted && who == agent ==>
            && (limits.callsPerDay > 0 ==> DayCalls(h, agent, Day(t.daily)) < limits.callsPerDay)
            && (limits.tokensPerDay > 0 ==> DaySpent(h, agent, Day(t.tokens)) < limits.tokensPerDay))
  {
    hide Tracks, DailyEntry, Day, DayCalls, DaySpent, Kept, TimesOf;
    var (g1, limited) := RateChecked(g, who, limits.perMinute, t.rate);
    var (g2, overCalls) := DailyChecked(g1, who, limits.callsPerDay, t.daily);
    LaterTracks(g.usage, h, agent, now, t.tokens);
    TouchTracks(g1, h, agent, who, now, t.daily);
    LaterTracks(Touched(g1, who, t.daily).usage, h, agent, t.daily, t.tokens);
    LaterTracks(g1.usage, h, agent, now, t.daily);
    TouchTracks(g2, h, agent, who, t.daily, t.tokens);
    if who == agent {
      EntryOfDay(g1.usage, h, agent, now, t.daily);
      EntryOfDay(g2.usage, h, agent, t.daily, t.tokens);
    }
  }

  lemma NextUsage(digest: Digest, g: State, step: Step)
    ensures var g' := Next(digest, g, step);
      match step
      case Mediate(call, limits, actionClass, t, run) =>
        var (g1, decision) := Checked(g, call.agent, limits, actionClass, t);
        var u1 := g1.usage[call.agent := WithCall(DailyEntry(g1.usage, call.agent, t.noteDaily))];
        g'.usage ==
          if decision != Decision.Admitted then g1.usage
          else if actionClass == Auto then
            u1[call.agent := WithTokens(DailyEntry(u1, call.agent, t.noteTokens), run.tokens)]
          else u1
      case Resolve(requestId, approved, decider, tick, run) =>
        (match Position(g.pending, requestId)
         case None => g'.usage == g.usage
         case Some(i) =>
           var who := g.pending[i].call.agent;
           g'.usage == if approved then g.usage[who := WithTokens(DailyEntry(g.usage, who, tick), run.tokens)] else g.usage)
      case _ => g'.usage == g.usage
  {
    hide Checked, Appended, Bumped, DailyEntry, ExecutedText, SaturatingAdd;
  }

  /** One more admission, whose check was on its own day or an earlier one. */
  lemma AdmissionStaysWithin(h: seq<Happening>, agent: string, who: string, note: nat, limit: nat, checked: nat, at: nat)
    requires limit > 0 && CallsWithin(h, agent, limit) && checked <= at
    requires who == agent ==> DayCalls(h, agent, Day(checked)) < limit
    requires who == agent && Day(at) > Day(checked) ==> DayCalls(h, agent, Day(at)) == 0
    ensures CallsWithin(h + [CallAdmitted(who, note, at)], agent, limit)
  {
    hide Day, DayCalls, FallsOn;
    FallsOnIs(at);
    DayOrder(checked, at);
    forall d ensures DayCalls(h + [CallAdmitted(who, note, at)], agent, d) <= limit {
      DaySnoc(h, CallAdmitted(who, note, at), agent, d);
    }
  }

  lemma ExecutionStaysWithin(h: seq<Happening>, x: Happening, agent: string, who: string, n: U64,
                             budget: nat, cost: nat, checked: nat, at: nat)
    requires budget > 0 && SpentWithin(h, agent, budget, cost) && checked <= at && Execution(x, who, at, n)
    requires x.AutoExecuted? && who == agent ==> n <= cost && DaySpent(h, agent, Day(checked)) < budget
    requires x.AutoExecuted? && who == agent && Day(at) > Day(checked) ==> DaySpent(h, agent, Day(at)) == 0
    ensures SpentWithin(h + [x], agent, budget, cost)
  {
    hide Day, DaySpent, DayApproved, FallsOn;
    FallsOnIs(at);
    DayOrder(checked, at);
    forall d ensures DaySpent(h + [x], agent, d) < budget + cost + DayApproved(h + [x], agent, d) {
      DaySnoc(h, x, agent, d);
    }
  }

  /** Happenings that admit nothing or spend nothing keep the other bound. */
  lemma OtherBoundStays(h: seq<Happening>, x: Happening, agent: string, limit: nat, budget: nat, cost: nat)
    ensures !x.CallAdmitted? && CallsWithin(h, agent, limit) ==> CallsWithin(h + [x], agent, limit)
    ensures !x.AutoExecuted? && !x.ReviewApproved? && SpentWithin(h, agent, budget, cost)
      ==> SpentWithin(h + [x], agent, budget, cost)
  {
    hide DaySpent, DayApproved, DayCalls;
    forall d ensures !x.CallAdmitted? ==> DayCalls(h + [x], agent, d) == DayCalls(h, agent, d) {
      DaySnoc(h, x, agent, d);
    }
    forall d ensures !x.AutoExecuted? && !x.ReviewApproved? ==> DaySpent(h + [x], agent, d) == DaySpent(h, agent, d) {
      DaySnoc(h, x, agent, d);
    }
    forall d ensures !x.ReviewApproved? ==> DayApproved(h + [x], agent, d) == DayApproved(h, agent, d) {
      DaySnoc(h, x, agent, d);
    }
  }

  /** The limits an agent is always mediated under; zero leaves one out. */
  predicate UnderBudget(step: Step, agent: string, limit: nat, budget: nat, cost: nat) {
    step.Mediate? && step.call.agent == agent ==>
      && (limit > 0 ==> step.limits.callsPerDay == limit)
      && (budget > 0 ==> step.limits.tokensPerDay == budget && (step.actionClass == Auto ==> step.run.tokens <= cost))
  }

  ghost predicate Budgeted(w: World, agent: string, limit: nat, budget: nat, cost: nat, now: nat) {
    && Tracks(w.state.usage, w.history, agent, now)
    && (limit > 0 ==> CallsWithin(w.history, agent, limit))
    && (budget > 0 ==> SpentWithin(w.history, agent, budget, cost))
  }

  lemma MediateKeepsBudget(digest: Digest, w: World, step: Step, agent: string, limit: nat, budget: nat, cost: nat, now: nat)
    requires Budgeted(w, agent, limit, budget, cost, now) && step.Mediate?
    requires UnderBudget(step, agent, limit, budget, cost) && TickOk(now, step)
    ensures Budgeted(After(digest, w, step), agent, limit, budget, cost, LastTick(now, step))
  {
    hide Next, Checked, Tracks, CallsWithin, SpentWithin, DailyEntry, Day, DayCalls, DaySpent, WithCall, WithTokens;
    var call, t, h := step.call, step.ticks, w.history;
    var (g1, decision) := Checked(w.state, call.agent, step.limits, step.actionClass, t);
    CheckedBudget(w.state, h, agent, call.agent, step.limits, step.actionClass, t, now);
    NextUsage(digest, w.state, step);
    if decision != Decision.Admitted {
      assert h + [] == h;
      LaterTracks(g1.usage, h, agent, t.tokens, t.noteTokens);
    } else {
      var a := CallAdmitted(call.agent, t.note, t.noteDaily);
      var u1 := g1.usage[call.agent := WithCall(DailyEntry(g1.usage, call.agent, t.noteDaily))];
      CallTracks(g1.usage, h, agent, call.agent, t.note, t.tokens, t.noteDaily);
      IdleLater(w.state.usage, h, agent, now, t.noteDaily);
      DayOrder(now, t.daily);
      OtherBoundStays(h, a, agent, limit, budget, cost);
      if limit > 0 {
        AdmissionStaysWithin(h, agent, call.agent, t.note, limit, t.daily, t.noteDaily);
      }
      if step.actionClass == Auto {
        var x := AutoExecuted(call, t.noteTokens, step.run.tokens);
        TwoMore(h, a, x);
        SpendTracks(u1, h + [a], x, agent, call.agent, step.run.tokens, t.noteDaily, t.noteTokens);
        OtherBoundStays(h + [a], x, agent, limit, budget, cost);
        DaySnoc(h, a, agent, Day(t.tokens));
        DaySnoc(h, a, agent, Day(t.noteTokens));
        IdleLater(g1.usage, h, agent, t.tokens, t.noteTokens);
        if budget > 0 {
          ExecutionStaysWithin(h + [a], x, agent, call.agent, step.run.tokens, budget, cost, t.tokens, t.noteTokens);
        }
      } else {
        var x := ReviewQueued(w.state.nextRequestId, call);
        TwoMore(h, a, x);
        ForeignTracks(u1, h + [a], x, agent, t.noteDaily);
        OtherBoundStays(h + [a], x, agent, limit, budget, cost);
        LaterTracks(u1, (h + [a]) + [x], agent, t.noteDaily, t.noteTokens);
      }
    }
  }

  lemma IdleLater(usage: map<string, Usage>, h: seq<Happening>, agent: string, now: nat, later: nat)
    requires Tracks(usage, h, agent, now) && now <= later
    ensures Day(later) > Day(now) ==> Idle(h, agent, Day(later))
  {
    hide Day, DayCalls, DaySpent;
  }

  lemma ResolveKeepsBudget(digest: Digest, w: World, step: Step, agent: string, limit: nat, budget: nat, cost: nat, now: nat)
    requires Budgeted(w, agent, limit, budget, cost, now) && step.Resolve? && TickOk(now, step)
    ensures Budgeted(After(digest, w, step), agent, limit, budget, cost, LastTick(now, step))
  {
    hide Next, Tracks, CallsWithin, SpentWithin, DailyEntry, Day, DayCalls, DaySpent, WithTokens, Position;
    var h := w.history;
    NextUsage(digest, w.state, step);
    match Position(w.state.pending, step.requestId)
    case None =>
      assert h + [] == h;
      LaterTracks(w.state.usage, h, agent, now, step.tick);
    case Some(i) =>
      var call := w.state.pending[i].call;
      if step.approved {
        var x := ReviewApproved(step.requestId, call, step.tick, step.run.tokens);
        SpendTracks(w.state.usage, h, x, agent, call.agent, step.run.tokens, now, step.tick);
        OtherBoundStays(h, x, agent, limit, budget, cost);
        if budget > 0 {
          ExecutionStaysWithin(h, x, agent, call.agent, step.run.tokens, budget, cost, now, step.tick);
        }
      } else {
        var x := ReviewDenied(step.requestId, call);
        LaterTracks(w.state.usage, h, agent, now, step.tick);
        ForeignTracks(w.state.usage, h, x, agent, step.tick);
        OtherBoundStays(h, x, agent, limit, budget, cost);
      }
  }

  lemma {:induction false} RunKeepsBudget(digest: Digest, w: World, steps: seq<Step>, agent: string,
                                          limit: nat, budget: nat, cost: nat, now: nat)
    returns (later: nat)
    requires Budgeted(w, agent, limit, budget, cost, now)
    requires ClockRuns(now, steps) && forall s | s in steps :: UnderBudget(s, agent, limit, budget, cost)
    ensures Budgeted(Run(digest, w, steps), agent, limit, budget, cost, later)
    decreases |steps|
  {
    hide Budgeted, UnderBudget, TickOk, Next;
    if steps == [] {
      later := now;
    } else {
      if steps[0].Mediate? {
        MediateKeepsBudget(digest, w, steps[0], agent, limit, budget, cost, now);
      } else if steps[0].Resolve? {
        ResolveKeepsBudget(digest, w, steps[0], agent, limit, budget, cost, now);
      } else {
        QuietKeepsBudget(digest, w, steps[0], agent, limit, budget, cost, now);
      }
      later := RunKeepsBudget(digest, After(digest, w, steps[0]), steps[1..], agent, limit, budget, cost,
                              LastTick(now, steps[0]));
    }
  }

  lemma QuietKeepsBudget(digest: Digest, w: World, step: Step, agent: string, limit: nat, budget: nat, cost: nat, now: nat)
    requires Budgeted(w, agent, limit, budget, cost, now) && (step.Refuse? || step.Note?)
    ensures Budgeted(After(digest, w, step), agent, limit, budget, cost, now)
  {
    hide Next, Tracks, CallsWithin, SpentWithin;
    NextUsage(digest, w.state, step);
    assert w.history + [] == w.history;
  }

  lemma BeginsBudgeted(agent: string, limit: nat, budget: nat, cost: nat, now: nat)
    ensures Budgeted(BEGINNING, agent, limit, budget, cost, now)
  {
  }

  /** An agent always mediated under one daily call limit never has more calls admitted on a day. */
  lemma DailyCallLimitHolds(digest: Digest, steps: seq<Step>, agent: string, limit: nat, start: nat, day: nat)
    requires limit > 0 && ClockRuns(start, steps) && forall s | s in steps :: UnderBudget(s, agent, limit, 0, 0)
    ensures DayCalls(Run(digest, BEGINNING, steps).history, agent, day) <= limit
  {
    hide Run, UnderBudget, ClockRuns, Tracks, DayCalls;
    BeginsBudgeted(agent, limit, 0, 0, start);
    var later := RunKeepsBudget(digest, BEGINNING, steps, agent, limit, 0, 0, start);
  }

  /**
   Tokens spent on a day stay below the budget plus the cost of one execution, plus whatever humans
   approved that day: approvals are not checked against the budget.
   */
  lemma DailyTokenBudgetHolds(digest: Digest, steps: seq<Step>, agent: string, budget: nat, cost: nat, start: nat, day: nat)
    requires budget > 0 && ClockRuns(start, steps) && forall s | s in steps :: UnderBudget(s, agent, 0, budget, cost)
    ensures var h := Run(digest, BEGINNING, steps).history;
      DaySpent(h, agent, day) < budget + cost + DayApproved(h, agent, day)
  {
    hide Run, UnderBudget, ClockRuns, Tracks, DaySpent, DayApproved;
    BeginsBudgeted(agent, 0, budget, cost, start);
    var later := RunKeepsBudget(digest, BEGINNING, steps, agent, 0, budget, cost, start);
  }
}
