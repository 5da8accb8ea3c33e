/**
 Which calls are admitted, exactly, in every run: those in scope whose agent's own history leaves room in
 the last minute, in the day's calls and in the day's tokens. Other agents, pruning and rollover play no part.
 */
module GatewayAdmission {
  import opened Audit
  import opened Columns
  import opened Gateway
  import opened GatewayBudgets
  import opened GatewayLedger
  import opened GatewayWindow
  import opened Orders
  import opened Text

  /** What the gateway holds of an agent stands for the agent's part of the history. */
  ghost predicate Stands(w: World, agent: string, now: nat) {
    && Holds(AdmittedTimes(w.history, agent), TimesOf(w.state.recent, agent), now)
    && Tracks(w.state.usage, w.history, agent, now)
  }

  function ClockAfter(now: nat, steps: seq<Step>): nat
    decreases |steps|
  {
    if steps == [] then now else ClockAfter(LastTick(now, steps[0]), steps[1..])
  }

  lemma RecordHolds(times: seq<nat>, held: seq<nat>, now: nat, at: nat)
    requires Holds(times, held, now) && 1 <= now <= at
    ensures Holds(times + [at], held + [at], at)
  {
    var times' := times + [at];
    assert held + [at] == times'[|times'| - |held + [at]|..];
  }

  lemma StepHolds(digest: Digest, w: World, step: Step, agent: string, now: nat)
    requires Holds(AdmittedTimes(w.history, agent), TimesOf(w.state.recent, agent), now)
    requires now >= 1 && TickOk(now, step)
    ensures var w' := After(digest, w, step);
      Holds(AdmittedTimes(w'.history, agent), TimesOf(w'.state.recent, agent), LastTick(now, step))
  {
    hide Next, Checked, Holds, Happenings;
    var times, held := AdmittedTimes(w.history, agent), TimesOf(w.state.recent, agent);
    assert times + [] == times;
    NextRecent(digest, w.state, step);
    StepTimes(w.state, w.history, step, agent);
    if step.Mediate? {
      var call, t := step.call, step.ticks;
      var (g1, decision) := Checked(w.state, call.agent, step.limits, step.actionClass, t);
      var held1 := TimesOf(g1.recent, agent);
      CheckedRecent(w.state, call.agent, step.limits, step.actionClass, t);
      KeptTimes(w.state.recent, Cutoff(t.rate), agent);
      PruneKeeps(times, held, now, t.rate);
      LaterHolds(times, held, now, t.rate);
      if decision == Decision.Admitted {
        TimesAppend(g1.recent, (call.agent, t.note), agent);
        assert held1 + [] == held1;
        if call.agent == agent {
          RecordHolds(times, held1, t.rate, t.note);
          LaterHolds(times + [t.note], held1 + [t.note], t.note, t.noteTokens);
        } else {
          LaterHolds(times, held1, t.rate, t.noteTokens);
        }
      } else {
        assert g1.recent + [] == g1.recent;
        LaterHolds(times, held1, t.rate, t.noteTokens);
      }
    } else {
      LaterHolds(times, held, now, LastTick(now, step));
    }
  }

  lemma StepTracks(digest: Digest, w: World, step: Step, agent: string, now: nat)
    requires Tracks(w.state.usage, w.history, agent, now) && TickOk(now, step)
    ensures var w' := After(digest, w, step); Tracks(w'.state.usage, w'.history, agent, LastTick(now, step))
  {
    hide Tracks, TickOk, Next, Happenings;
    if step.Mediate? {
      MediateKeepsBudget(digest, w, step, agent, 0, 0, 0, now);
    } else if step.Resolve? {
      ResolveKeepsBudget(digest, w, step, agent, 0, 0, 0, now);
    } else {
      QuietKeepsBudget(digest, w, step, agent, 0, 0, 0, now);
    }
  }

  lemma {:induction false} RunStands(digest: Digest, w: World, steps: seq<Step>, agent: string, now: nat)
    requires Stands(w, agent, now) && now >= 1 && ClockRuns(now, steps)
    ensures Stands(Run(digest, w, steps), agent, ClockAfter(now, steps)) && ClockAfter(now, steps) >= now
    decreases |steps|
  {
    hide After, TickOk, Holds, Tracks;
    if steps != [] {
      StepHolds(digest, w, steps[0], agent, now);
      StepTracks(digest, w, steps[0], agent, now);
      LastTickIsLater(now, steps[0]);
      RunStands(digest, After(digest, w, steps[0]), steps[1..], agent, LastTick(now, steps[0]));
    }
  }

  // ---------------------------------------------------------------------------
  // Counting the history
  // ---------------------------------------------------------------------------

  /** After pruning, what is held is exactly what the last minute holds. */
  lemma HeldIsWithin(times: seq<nat>, held: seq<nat>, now: nat, at: nat)
    requires Holds(times, held, now) && now <= at
    ensures |Above(held, Cutoff(at))| == Within(times, at)
  {
    hide Above, Within;
    PruneKeeps(times, held, now, at);
    var kept := Above(held, Cutoff(at));
    var k := |times| - |kept|;
    AboveIsAbove(held, Cutoff(at));
    forall i | k <= i < |times| ensures times[i] <= at < times[i] + 60 {
      assert times[i] == kept[i - k];
    }
    WithinSuffixIs(times, at, k);
  }

  lemma {:induction false} AboveIsAbove(times: seq<nat>, cutoff: nat)
    ensures forall i | 0 <= i < |Above(times, cutoff)| :: Above(times, cutoff)[i] > cutoff
  {
    if times != [] {
      AboveIsAbove(times[1..], cutoff);
    }
  }

  lemma {:induction false} WithinSuffixIs(times: seq<nat>, t: nat, k: nat)
    requires k <= |times|
    requires forall i | 0 <= i < k :: times[i] + 60 <= t
    requires forall i | k <= i < |times| :: times[i] <= t < times[i] + 60
    ensures Within(times, t) == |times| - k
    decreases |times|
  {
    if times != [] {
      var n := |times| - 1;
      WithinSuffixIs(times[..n], t, if k <= n then k else n);
    }
  }

  // ---------------------------------------------------------------------------
  // The decision
  // ---------------------------------------------------------------------------

  /** The agent has had its calls of the minute that ends at `at`. */
  ghost predicate MinuteIsFull(h: seq<Happening>, agent: string, limit: nat, at: nat) {
    limit > 0 && Within(AdmittedTimes(h, agent), at) >= limit
  }

  /** The agent has had its calls of the day of `at`. */
  ghost predicate CallsAreUsed(h: seq<Happening>, agent: string, limit: nat, at: nat) {
    limit > 0 && exists day :: FallsOn(at, day) && DayCalls(h, agent, day) >= limit
  }

  /** The agent has spent its tokens of the day of `at`. */
  ghost predicate TokensAreSpent(h: seq<Happening>, agent: string, budget: nat, at: nat) {
    budget > 0 && exists day :: FallsOn(at, day) && DaySpent(h, agent, day) >= budget
  }

  lemma DecisionOn(w: World, agent: string, limits: Limits, actionClass: ActionClass, t: Ticks, now: nat)
    requires Stands(w, agent, now) && t.InOrder(now)
    ensures Checked(w.state, agent, limits, actionClass, t).1 ==
      if actionClass == Forbidden then OutOfScope
      else if MinuteIsFull(w.history, agent, limits.perMinute, t.rate) then RateLimited
      else if CallsAreUsed(w.history, agent, limits.callsPerDay, t.daily) then OverCalls
      else if TokensAreSpent(w.history, agent, limits.tokensPerDay, t.tokens) then OverTokens
      else Decision.Admitted
  {
    hide Tracks, Holds, DailyEntry, Day, DayCalls, DaySpent, Kept, TimesOf, FallsOn, Within;
    var h, g := w.history, w.state;
    var times, held := AdmittedTimes(h, agent), TimesOf(g.recent, agent);
    KeptTimes(g.recent, Cutoff(t.rate), agent);
    HeldIsWithin(times, held, now, t.rate);
    var (g1, limited) := RateChecked(g, agent, limits.perMinute, t.rate);
    var (g2, overCalls) := DailyChecked(g1, agent, limits.callsPerDay, t.daily);
    assert limited <==> MinuteIsFull(h, agent, limits.perMinute, t.rate);
    EntryOfDay(g1.usage, h, agent, now, t.daily);
    FallsOnIs(t.daily);
    assert FallsOn(t.daily, Day(t.daily));
    assert overCalls <==> CallsAreUsed(h, agent, limits.callsPerDay, t.daily);
    LaterTracks(g1.usage, h, agent, now, t.daily);
    TouchTracks(g1, h, agent, agent, now, t.daily);
    EntryOfDay(g2.usage, h, agent, t.daily, t.tokens);
    FallsOnIs(t.tokens);
    assert FallsOn(t.tokens, Day(t.tokens));
    assert TokensChecked(g2, agent, limits.tokensPerDay, t.tokens).1 <==> TokensAreSpent(h, agent, limits.tokensPerDay, t.tokens);
  }

  lemma BeginsStanding(agent: string, now: nat)
    ensures Stands(BEGINNING, agent, now)
  {
  }

  /**
   After any run under a clock that starts at 1 or later, a call is admitted exactly when it is in scope, its
   agent had fewer calls than allowed admitted in the minute that ends now, and today's calls and tokens are
   below their limits; and the first of these that fails is what the caller is told.
   */
  lemma AdmittedIff(digest: Digest, start: nat, steps: seq<Step>, call: ToolCall, limits: Limits, actionClass: ActionClass, t: Ticks)
    requires start >= 1 && ClockRuns(start, steps) && t.InOrder(ClockAfter(start, steps))
    ensures var w := Run(digest, BEGINNING, steps);
      var decision, h := Checked(w.state, call.agent, limits, actionClass, t).1, w.history;
      var full, used, spent := MinuteIsFull(h, call.agent, limits.perMinute, t.rate),
        CallsAreUsed(h, call.agent, limits.callsPerDay, t.daily), TokensAreSpent(h, call.agent, limits.tokensPerDay, t.tokens);
      && (decision == Decision.Admitted <==> actionClass != Forbidden && !full && !used && !spent)
      && (decision == OutOfScope <==> actionClass == Forbidden)
      && (decision == RateLimited <==> actionClass != Forbidden && full)
      && (decision == OverCalls <==> actionClass != Forbidden && !full && used)
      && (decision == OverTokens <==> actionClass != Forbidden && !full && !used && spent)
  {
    hide Run, Checked, MinuteIsFull, CallsAreUsed, TokensAreSpent, Stands, ClockAfter;
    BeginsStanding(call.agent, start);
    RunStands(digest, BEGINNING, steps, call.agent, start);
    DecisionOn(Run(digest, BEGINNING, steps), call.agent, limits, actionClass, t, ClockAfter(start, steps));
  }
}
