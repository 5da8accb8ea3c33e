/**
 The rate limit over the whole history: an agent always mediated under one limit n > 0 has at most
 n admitted calls in any 60 seconds, whatever other agents do and whenever pruning happens, exactly
 when the clock does not start at 0.
 */
module GatewayWindow {
  import opened Audit
  import opened Columns
  import opened Gateway
  import opened GatewayLedger
  import opened Orders
  import opened Text

  /** When an agent's admitted calls were recorded, in order. */
  function AdmittedTimes(h: seq<Happening>, agent: string): seq<nat> {
    if h == [] then []
    else
      var rest := AdmittedTimes(h[..|h| - 1], agent);
      var last := h[|h| - 1];
      if last.CallAdmitted? && last.agent == agent then rest + [last.note] else rest
  }

  predicate Sorted(times: seq<nat>) {
    forall i, j | 0 <= i < j < |times| :: times[i] <= times[j]
  }

  /** Any two admissions n apart are a full window apart. */
  ghost predicate Spaced(times: seq<nat>, n: nat) {
    forall i, j | 0 <= i && j == i + n && j < |times| :: times[i] + RATE_WINDOW_SECS <= times[j]
  }

  /** The recorded times still held are the latest ones; those dropped are out of the window. */
  predicate Holds(times: seq<nat>, held: seq<nat>, now: nat) {
    && |held| <= |times|
    && held == times[|times| - |held|..]
    && (forall i | 0 <= i < |times| - |held| :: times[i] + RATE_WINDOW_SECS <= now)
    && (forall i | 0 <= i < |times| :: 1 <= times[i] <= now)
    && Sorted(times)
  }

  ghost predicate Limited(w: World, agent: string, n: nat, now: nat) {
    var times := AdmittedTimes(w.history, agent);
    Holds(times, TimesOf(w.state.recent, agent), now) && Spaced(times, n)
  }

  // ---------------------------------------------------------------------------
  // Pruning and recording
  // ---------------------------------------------------------------------------

  function Above(times: seq<nat>, cutoff: nat): seq<nat> {
    if times == [] then []
    else if times[0] > cutoff then [times[0]] + Above(times[1..], cutoff)
    else Above(times[1..], cutoff)
  }

  lemma {:induction false} KeptTimes(recent: seq<(string, nat)>, cutoff: nat, agent: string)
    ensures TimesOf(Kept(recent, cutoff), agent) == Above(TimesOf(recent, agent), cutoff)
  {
    if recent != [] {
      KeptTimes(recent[1..], cutoff, agent);
      var rest := Kept(recent[1..], cutoff);
      assert ([recent[0]] + rest)[1..] == rest;
      var times := TimesOf(recent[1..], agent);
      assert ([recent[0].1] + times)[1..] == times;
    }
  }

  lemma {:induction false} TimesAppend(recent: seq<(string, nat)>, x: (string, nat), agent: string)
    ensures TimesOf(recent + [x], agent) == TimesOf(recent, agent) + (if x.0 == agent then [x.1] else [])
  {
    if recent == [] {
      assert [x][1..] == [];
    } else {
      assert (recent + [x])[1..] == recent[1..] + [x];
      TimesAppend(recent[1..], x, agent);
    }
  }

  /** Pruning a sorted list drops a front part, all of it at or below the cutoff. */
  lemma {:induction false} AboveIsSuffix(times: seq<nat>, cutoff: nat) returns (dropped: nat)
    requires Sorted(times)
    ensures dropped <= |times| && Above(times, cutoff) == times[dropped..]
    ensures forall i | 0 <= i < dropped :: times[i] <= cutoff
  {
    if times == [] {
      dropped := 0;
    } else if times[0] > cutoff {
      AllAbove(times, cutoff);
      dropped := 0;
    } else {
      SuffixSorted(times, 1);
      dropped := AboveIsSuffix(times[1..], cutoff);
      SuffixOfSuffix(times, 1, dropped);
      dropped := dropped + 1;
    }
  }

  lemma {:induction false} AllAbove(times: seq<nat>, cutoff: nat)
    requires forall i | 0 <= i < |times| :: times[i] > cutoff
    ensures Above(times, cutoff) == times
  {
    if times != [] {
      AllAbove(times[1..], cutoff);
    }
  }

  lemma SuffixSorted(times: seq<nat>, k: nat)
    requires Sorted(times) && k <= |times|
    ensures Sorted(times[k..])
  {
  }

  lemma SuffixOfSuffix(times: seq<nat>, base: nat, more: nat)
    requires base + more <= |times|
    ensures times[base..][more..] == times[base + more..]
    ensures forall i | base <= i < |times| :: times[i] == times[base..][i - base]
  {
  }

  /** What is dropped is out of the window, because every time recorded is at least 1. */
  lemma PruneKeeps(times: seq<nat>, held: seq<nat>, now: nat, later: nat)
    requires Holds(times, held, now) && now <= later
    ensures Holds(times, Above(held, Cutoff(later)), later)
  {
    hide Sorted, Above;
    var base := |times| - |held|;
    SuffixSorted(times, base);
    var dropped := AboveIsSuffix(held, Cutoff(later));
    SuffixOfSuffix(times, base, dropped);
  }

  lemma LaterHolds(times: seq<nat>, held: seq<nat>, now: nat, later: nat)
    requires Holds(times, held, now) && now <= later
    ensures Holds(times, held, later)
  {
  }

  /** With fewer than n held, the n-th last admission is out of the window: one more may be recorded. */
  lemma RecordKeeps(times: seq<nat>, held: seq<nat>, n: nat, now: nat, at: nat)
    requires Holds(times, held, now) && Spaced(times, n) && |held| < n && 1 <= now <= at
    ensures Holds(times + [at], held + [at], at) && Spaced(times + [at], n)
  {
    var times' := times + [at];
    assert held + [at] == times'[|times'| - |held + [at]|..];
    forall i, j | 0 <= i && j == i + n && j < |times'| ensures times'[i] + RATE_WINDOW_SECS <= times'[j] {
      if j < |times| {
        assert times[i] + RATE_WINDOW_SECS <= times[j];
      }
    }
  }

  // ---------------------------------------------------------------------------
  // Steps
  // ---------------------------------------------------------------------------

  /** The held times and the decision, as `mediate` leaves them. */
  lemma CheckedRecent(g: State, agent: string, limits: Limits, actionClass: ActionClass, t: Ticks)
    ensures var (g', decision) := Checked(g, agent, limits, actionClass, t);
      && (g'.recent == g.recent || g'.recent == Kept(g.recent, Cutoff(t.rate)))
      && (decision == Decision.Admitted && limits.perMinute > 0 ==>
            g'.recent == Kept(g.recent, Cutoff(t.rate)) && |TimesOf(g'.recent, agent)| < limits.perMinute)
  {
  }

  lemma NextRecent(digest: Digest, g: State, step: Step)
    ensures var g' := Next(digest, g, step);
      match step
      case Mediate(call, limits, actionClass, t, run) =>
        var (g1, decision) := Checked(g, call.agent, limits, actionClass, t);
        g'.recent == g1.recent + if decision == Decision.Admitted then [(call.agent, t.note)] else []
      case _ => g'.recent == g.recent
  {
    hide Checked, Appended, Bumped, DailyEntry, ExecutedText;
  }

  lemma TimesSnoc(h: seq<Happening>, x: Happening, agent: string)
    ensures AdmittedTimes(h + [x], agent)
      == AdmittedTimes(h, agent) + if x.CallAdmitted? && x.agent == agent then [x.note] else []
  {
    assert (h + [x])[..|h|] == h;
  }

  /** A step's admissions of an agent. */
  lemma StepTimes(g: State, h: seq<Happening>, step: Step, agent: string)
    ensures AdmittedTimes(h + Happenings(g, step), agent) == AdmittedTimes(h, agent) +
      if step.Mediate? && step.call.agent == agent &&
         Checked(g, agent, step.limits, step.actionClass, step.ticks).1 == Decision.Admitted
      then [step.ticks.note] else []
  {
    hide Checked;
    var more := Happenings(g, step);
    if more == [] {
      assert h + more == h;
    } else if |more| == 1 {
      TimesSnoc(h, more[0], agent);
      assert h + more == h + [more[0]];
    } else {
      TimesSnoc(h, more[0], agent);
      TimesSnoc(h + [more[0]], more[1], agent);
      assert h + more == (h + [more[0]]) + [more[1]];
    }
  }

  /** The limit an agent is mediated under. */
  predicate UnderLimit(step: Step, agent: string, n: nat) {
    step.Mediate? && step.call.agent == agent ==> step.limits.perMinute == n
  }

  lemma StepKeepsLimit(digest: Digest, w: World, step: Step, agent: string, n: nat, now: nat)
    requires Limited(w, agent, n, now) && n > 0 && now >= 1
    requires UnderLimit(step, agent, n) && TickOk(now, step)
    ensures Limited(After(digest, w, step), agent, n, LastTick(now, step))
  {
    hide Next, Checked, Holds, Spaced, Happenings;
    var times, held := AdmittedTimes(w.history, agent), TimesOf(w.state.recent, agent);
    assert times + [] == times;
    NextRecent(digest, w.state, step);
    StepTimes(w.state, w.history, step, agent);
    if step.Mediate? {
      var call, t := step.call, step.ticks;
      var (g1, decision) := Checked(w.state, call.agent, step.limits, step.actionClass, t);
      var held1 := TimesOf(g1.recent, agent);
      CheckedRecent(w.state, call.agent, step.limits, step.actionClass, t);
      KeptTimes(w.state.recent, Cutoff(t.rate), agent);
      PruneKeeps(times, held, now, t.rate);
      LaterHolds(times, held, now, t.rate);
      if decision == Decision.Admitted {
        TimesAppend(g1.recent, (call.agent, t.note), agent);
        assert held1 + [] == held1;
        if call.agent == agent {
          RecordKeeps(times, held1, n, t.rate, t.note);
          LaterHolds(times + [t.note], held1 + [t.note], t.note, t.noteTokens);
        } else {
          LaterHolds(times, held1, t.rate, t.noteTokens);
        }
      } else {
        assert g1.recent + [] == g1.recent;
        LaterHolds(times, held1, t.rate, t.noteTokens);
      }
    } else {
      LaterHolds(times, held, now, LastTick(now, step));
    }
  }

  lemma {:induction false} RunKeepsLimit(digest: Digest, w: World, steps: seq<Step>, agent: string, n: nat, now: nat)
    returns (later: nat)
    requires Limited(w, agent, n, now) && n > 0 && now >= 1
    requires ClockRuns(now, steps) && AllUnderLimit(steps, agent, n)
    ensures Limited(Run(digest, w, steps), agent, n, later)
    decreases |steps|
  {
    hide Limited, After, UnderLimit, TickOk;
    if steps == [] {
      later := now;
    } else {
      var next := LastTick(now, steps[0]);
      StepKeepsLimit(digest, w, steps[0], agent, n, now);
      LastTickIsLater(now, steps[0]);
      later := RunKeepsLimit(digest, After(digest, w, steps[0]), steps[1..], agent, n, next);
    }
  }

  lemma LastTickIsLater(now: nat, step: Step)
    requires TickOk(now, step)
    ensures LastTick(now, step) >= now
  {
  }

  // ---------------------------------------------------------------------------
  // Windows
  // ---------------------------------------------------------------------------

  /** How many of the times fall in (t - 60, t]. */
  function Within(times: seq<nat>, t: nat): nat {
    if times == [] then 0
    else
      var last := times[|times| - 1];
      Within(times[..|times| - 1], t) + if last <= t < last + 60 then 1 else 0
  }

  /** If the first k are before the window, at most the rest are in it. */
  lemma {:induction false} WithinSuffix(times: seq<nat>, t: nat, k: nat)
    requires k <= |times| && forall i | 0 <= i < k :: times[i] + RATE_WINDOW_SECS <= t
    ensures Within(times, t) <= |times| - k
  {
    if |times| > k {
      WithinSuffix(times[..|times| - 1], t, k);
    } else if times != [] {
      WithinSuffix(times[..|times| - 1], t, k - 1);
    }
  }

  lemma {:induction false} SpacedWindow(times: seq<nat>, n: nat, t: nat)
    requires Sorted(times) && Spaced(times, n) && n > 0
    ensures Within(times, t) <= n
  {
    if times != [] {
      var m := |times| - 1;
      var last := times[m];
      if last <= t {
        if |times| > n {
          forall i | 0 <= i < |times| - n ensures times[i] + RATE_WINDOW_SECS <= t {
            assert times[i + n] <= last;
          }
          WithinSuffix(times, t, |times| - n);
        } else {
          WithinSuffix(times, t, 0);
        }
      } else {
        SpacedWindow(times[..m], n, t);
      }
    }
  }

  predicate AllUnderLimit(steps: seq<Step>, agent: string, n: nat) {
    forall s | s in steps :: UnderLimit(s, agent, n)
  }

  /** The admitted calls of an agent in the window ending at t, after a run. */
  function AdmittedWithin(digest: Digest, steps: seq<Step>, agent: string, t: nat): nat {
    Within(AdmittedTimes(Run(digest, BEGINNING, steps).history, agent), t)
  }

  /** At most n admitted calls in every window, in every run under a clock that starts at 1 or later. */
  lemma RateLimitHolds(digest: Digest, start: nat, steps: seq<Step>, agent: string, n: nat, t: nat)
    requires n > 0 && start >= 1 && ClockRuns(start, steps) && AllUnderLimit(steps, agent, n)
    ensures AdmittedWithin(digest, steps, agent, t) <= n
  {
    hide Run, UnderLimit, ClockRuns;
    BeginsLimited(agent, n, start);
    var later := RunKeepsLimit(digest, BEGINNING, steps, agent, n, start);
    SpacedWindow(AdmittedTimes(Run(digest, BEGINNING, steps).history, agent), n, t);
  }

  lemma BeginsLimited(agent: string, n: nat, start: nat)
    ensures Limited(BEGINNING, agent, n, start)
  {
  }

  // ---------------------------------------------------------------------------
  // Clock reading 0
  // ---------------------------------------------------------------------------

  const ZERO_TICKS := Ticks(0, 0, 0, 0, 0, 0)

  /** A review call under a limit of n a minute, all at clock reading 0. */
  function CallAtZero(agent: string, n: nat): Step {
    Mediate(ToolCall(agent, "!room", "tool", ""), Limits(n, 0, 0), Review, ZERO_TICKS, ToolOutcome(true, "", 0))
  }

  function CallsAtZero(agent: string, n: nat, count: nat): seq<Step> {
    if count == 0 then [] else [CallAtZero(agent, n)] + CallsAtZero(agent, n, count - 1)
  }

  lemma {:induction false} ZeroClock(agent: string, n: nat, count: nat)
    ensures ClockRuns(0, CallsAtZero(agent, n, count)) && AllUnderLimit(CallsAtZero(agent, n, count), agent, n)
  {
    if count > 0 {
      ZeroClock(agent, n, count - 1);
      assert CallsAtZero(agent, n, count)[1..] == CallsAtZero(agent, n, count - 1);
    }
  }

  /** The saturating cutoff drops every call recorded at 0, so the next one at 0 is admitted. */
  lemma AdmittedAtZero(g: State, agent: string, n: nat)
    requires n > 0 && Kept(g.recent, 0) == []
    ensures Checked(g, agent, Limits(n, 0, 0), Review, ZERO_TICKS) == (g.(recent := []), Decision.Admitted)
  {
  }

  lemma StepAtZero(digest: Digest, w: World, agent: string, n: nat)
    requires n > 0 && Kept(w.state.recent, 0) == []
    ensures var w' := After(digest, w, CallAtZero(agent, n));
      && Kept(w'.state.recent, 0) == []
      && AdmittedTimes(w'.history, agent) == AdmittedTimes(w.history, agent) + [0]
  {
    hide Next, Happenings, AdmittedTimes, Checked;
    AdmittedAtZero(w.state, agent, n);
    NextRecent(digest, w.state, CallAtZero(agent, n));
    StepTimes(w.state, w.history, CallAtZero(agent, n), agent);
    assert [(agent, 0)][1..] == [];
  }

  lemma {:induction false} AllAdmittedAtZero(digest: Digest, w: World, agent: string, n: nat, count: nat)
    requires n > 0 && Kept(w.state.recent, 0) == []
    ensures Within(AdmittedTimes(Run(digest, w, CallsAtZero(agent, n, count)).history, agent), 0)
      == Within(AdmittedTimes(w.history, agent), 0) + count
    decreases count
  {
    hide After, AdmittedTimes, CallAtZero;
    if count > 0 {
      var w' := After(digest, w, CallAtZero(agent, n));
      StepAtZero(digest, w, agent, n);
      var times := AdmittedTimes(w.history, agent);
      assert (times + [0])[..|times|] == times;
      AllAdmittedAtZero(digest, w', agent, n, count - 1);
      assert CallsAtZero(agent, n, count)[1..] == CallsAtZero(agent, n, count - 1);
    }
  }

  /** Any number of calls at clock reading 0 are admitted, whatever the limit: one more than n, for one. */
  lemma RateLimitFailsAtZero(digest: Digest, agent: string, n: nat, count: nat)
    requires n > 0
    ensures var steps := CallsAtZero(agent, n, count);
      ClockRuns(0, steps) && AllUnderLimit(steps, agent, n) && AdmittedWithin(digest, steps, agent, 0) == count
  {
    hide Run, CallsAtZero, ClockRuns;
    ZeroClock(agent, n, count);
    AllAdmittedAtZero(digest, BEGINNING, agent, n, count);
    NoTimes(agent);
  }

  lemma NoTimes(agent: string)
    ensures Within(AdmittedTimes([], agent), 0) == 0
  {
  }

  /** The limit is kept in every run under a clock that starts at `start`. */
  ghost predicate LimitKept(digest: Digest, start: nat, agent: string, n: nat) {
    forall steps, t: nat | ClockRuns(start, steps) && AllUnderLimit(steps, agent, n) ::
      AdmittedWithin(digest, steps, agent, t) <= n
  }

  /** For every limit: it is kept in all runs exactly when the clock does not start at 0. */
  lemma LimitKeptIff(digest: Digest, start: nat, agent: string, n: nat)
    requires n > 0
    ensures LimitKept(digest, start, agent, n) <==> start >= 1
  {
    hide ClockRuns, AllUnderLimit, AdmittedWithin, CallsAtZero;
    if start == 0 {
      RateLimitFailsAtZero(digest, agent, n, n + 1);
      assert AdmittedWithin(digest, CallsAtZero(agent, n, n + 1), agent, 0) > n;
    } else {
      forall steps, t: nat | ClockRuns(start, steps) && AllUnderLimit(steps, agent, n)
        ensures AdmittedWithin(digest, steps, agent, t) <= n
      {
        RateLimitHolds(digest, start, steps, agent, n, t);
      }
    }
  }
}
