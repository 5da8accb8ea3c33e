/**
 The audit trail of every gateway run: it verifies, and the token totals replayed from its text
 are the metered counters.
 */
module GatewayAudit {
  import opened Audit
  import opened Columns
  import opened Gateway
  import opened GatewayLedger
  import opened Orders
  import opened Text
  import R = Replay

  // ---------------------------------------------------------------------------
  // Reading an execution entry back
  // ---------------------------------------------------------------------------

  lemma BoolWord(b: bool)
    ensures BoolText(b) != "" && forall c | c in BoolText(b) :: !R.IsWhitespace(c)
  {
  }

  lemma NumberWord(n: nat)
    ensures Decimal(n) != "" && forall c | c in Decimal(n) :: !R.IsWhitespace(c)
  {
    forall c | c in Decimal(n) ensures !R.IsWhitespace(c) {
      assert IsDigit(c);
    }
  }

  lemma ExecutedTextParts(tool: string, ok: string, tokens: string)
    ensures "executed: " + tool + " ok=" + ok + " tokens=" + tokens
      == ("executed:" + " " + tool) + " " + "ok=" + (ok + (" tokens=" + tokens))
    ensures "executed: " + tool + " ok=" + ok + " tokens=" + tokens
      == (("executed:" + " " + tool) + " " + ("ok=" + ok)) + " " + "tokens=" + (tokens + "")
  {
  }

  lemma OkReadsBack(tool: string, run: ToolOutcome)
    requires R.Absent(tool, "ok=")
    ensures R.ParseKv(ExecutedText(tool, run), "ok=") == Some(BoolText(run.ok))
  {
    hide Decimal, R.ParseKv, Find, BoolText;
    ExecutedTextParts(tool, BoolText(run.ok), Decimal(run.tokens));
    R.AbsentByChar("executed:", "ok=", 'k');
    R.AbsentAcross("executed:", tool, "ok=");
    BoolWord(run.ok);
    R.KeyReadsBack("executed:" + " " + tool, "ok=", BoolText(run.ok), " tokens=" + Decimal(run.tokens));
  }

  lemma TokensReadBack(tool: string, run: ToolOutcome)
    requires R.Absent(tool, "tokens=")
    ensures R.ParseKv(ExecutedText(tool, run), "tokens=") == Some(Decimal(run.tokens))
  {
    hide Decimal, R.ParseKv, Find;
    ExecutedTextParts(tool, BoolText(run.ok), Decimal(run.tokens));
    R.AbsentByChar("executed:", "tokens=", 'n');
    R.AbsentAcross("executed:", tool, "tokens=");
    R.AbsentByChar("ok=" + BoolText(run.ok), "tokens=", 'n');
    R.AbsentAcross("executed:" + " " + tool, "ok=" + BoolText(run.ok), "tokens=");
    NumberWord(run.tokens);
    R.KeyReadsBack(("executed:" + " " + tool) + " " + ("ok=" + BoolText(run.ok)), "tokens=", Decimal(run.tokens), "");
  }

  /** What the two parsed fields make of an execution's entry. */
  lemma ExecutionIsParsed(tool: string, run: ToolOutcome)
    ensures R.Classify(ExecutedText(tool, run)) == R.ExecutedKind(ExecutedText(tool, run))
  {
    hide R.Classify, R.ExecutedKind;
    var rest := " " + tool + " ok=" + BoolText(run.ok) + " tokens=" + Decimal(run.tokens);
    ClassifiedAsExecuted(rest);
    assert ExecutedText(tool, run) == "executed:" + rest;
  }

  lemma ClassifiedAsExecuted(rest: string)
    ensures R.Classify("executed:" + rest) == R.ExecutedKind("executed:" + rest)
  {
    hide R.ExecutedKind, R.BeforeColon;
    assert ("executed:" + rest)[0] == 'e';
  }

  /** For tool names without `tokens=`, the tokens replayed are those the executor reported. */
  lemma TokensReplay(tool: string, run: ToolOutcome)
    requires R.Absent(tool, "tokens=")
    ensures R.KindTokens(R.Classify(ExecutedText(tool, run))) == run.tokens
  {
    hide Decimal, R.ParseKv, R.Classify, ParseU64, ExecutedText;
    TokensReadBack(tool, run);
    ParsesBack(run.tokens);
    ExecutionIsParsed(tool, run);
  }

  /** And without `ok=` either, the entry replays as that execution. */
  lemma ExecutionReadsBack(tool: string, run: ToolOutcome)
    requires R.Absent(tool, "ok=") && R.Absent(tool, "tokens=")
    ensures R.Classify(ExecutedText(tool, run)) == R.Executed(run.ok, run.tokens)
  {
    hide Decimal, R.ParseKv, R.Classify, ParseU64, ExecutedText;
    OkReadsBack(tool, run);
    TokensReadBack(tool, run);
    ParsesBack(run.tokens);
    ExecutionIsParsed(tool, run);
  }

  /** A tool name that holds a key decides the word read for it, or leaves it to "ok=true" or "ok=false". */
  lemma OwnKeyReads(tool: string, run: ToolOutcome, key: string)
    requires !R.Absent(tool, key) && !R.Absent("executed: " + tool, key) && key != ""
    ensures var a := "executed: " + tool;
      R.ParseKv(ExecutedText(tool, run), key)
        == Some(if R.OwnWord(a, key).Some? then R.OwnWord(a, key).value else "ok=" + BoolText(run.ok))
  {
    hide Decimal, R.ParseKv, Find, BoolText, R.OwnWord, R.FirstWord;
    var a, tail := "executed: " + tool, " tokens=" + Decimal(run.tokens);
    var b := "ok=" + BoolText(run.ok) + tail;
    assert ExecutedText(tool, run) == a + " " + b;
    OkWord(run.ok, tail);
    R.OwnKeyDecides(a, b, key);
  }

  lemma KeyWithin(prefix: string, s: string, key: string)
    requires !R.Absent(s, key)
    ensures !R.Absent(prefix + s, key)
  {
    hide Find;
    var i := Find(s, key).value;
    assert (prefix + s)[|prefix| + i..] == s[i..];
    assert key <= s[i..];
  }

  lemma OkWord(ok: bool, tail: string)
    requires tail != "" && R.IsWhitespace(tail[0])
    ensures R.FirstWord("ok=" + BoolText(ok) + tail) == Some("ok=" + BoolText(ok))
  {
    hide R.IsWhitespace, R.WordOf;
    var word := if ok then "ok=true" else "ok=false";
    forall c | c in word ensures !R.IsWhitespace(c) {
      PrintableIsNoSpace(c);
    }
    R.WordBeforeSpace(word, tail);
    assert (word + tail)[0] == 'o' && !R.IsWhitespace('o');
    assert word == "ok=" + BoolText(ok);
  }

  lemma PrintableIsNoSpace(c: char)
    requires '!' <= c <= '~'
    ensures !R.IsWhitespace(c)
  {
  }

  /** A tool name with `ok=` in it misreports some run's success. */
  lemma OkForged(tool: string) returns (run: ToolOutcome)
    requires !R.Absent(tool, "ok=")
    ensures R.Classify(ExecutedText(tool, run)) != R.Executed(run.ok, run.tokens)
  {
    hide R.ParseKv, R.Absent, R.Classify, R.OwnWord, ExecutedText;
    KeyWithin("executed: ", tool, "ok=");
    var own := R.OwnWord("executed: " + tool, "ok=");
    run := ToolOutcome(own != Some("true"), "", 0);
    OwnKeyReads(tool, run, "ok=");
    ExecutionIsParsed(tool, run);
    assert ("ok=" + BoolText(run.ok))[0] == 'o' && "true"[0] == 't';
  }

  /** A tool name with `tokens=` in it replays some run with another token count. */
  lemma TokensForged(tool: string) returns (run: ToolOutcome)
    requires !R.Absent(tool, "tokens=")
    ensures R.KindTokens(R.Classify(ExecutedText(tool, run))) != run.tokens
  {
    hide R.ParseKv, R.Absent, R.Classify, R.OwnWord, ExecutedText;
    KeyWithin("executed: ", tool, "tokens=");
    var own := R.OwnWord("executed: " + tool, "tokens=");
    var n: U64 := if own.Some? && ParseU64(own.value).Some? then ParseU64(own.value).value else 0;
    run := ToolOutcome(true, "", if n == 0 then 1 else 0);
    OwnKeyReads(tool, run, "tokens=");
    ExecutionIsParsed(tool, run);
    NoNumber(run.ok);
  }

  lemma NoNumber(ok: bool)
    ensures ParseU64("ok=" + BoolText(ok)) == None
  {
    var s := "ok=" + BoolText(ok);
    assert s[0] == 'o' && s[0] in s && !IsDigit(s[0]);
  }

  /** Every run of a tool replays as it went exactly if the tool's name holds neither key. */
  lemma ExecutionReplays(tool: string)
    ensures (forall run: ToolOutcome :: R.Classify(ExecutedText(tool, run)) == R.Executed(run.ok, run.tokens))
       <==> R.Absent(tool, "ok=") && R.Absent(tool, "tokens=")
  {
    hide R.Classify, ExecutedText, R.Absent;
    if !R.Absent(tool, "ok=") {
      var run := OkForged(tool);
    } else if !R.Absent(tool, "tokens=") {
      var run := TokensForged(tool);
      assert R.KindTokens(R.Executed(run.ok, run.tokens)) == run.tokens;
    } else {
      forall run: ToolOutcome ensures R.Classify(ExecutedText(tool, run)) == R.Executed(run.ok, run.tokens) {
        ExecutionReadsBack(tool, run);
      }
    }
  }

  predicate NotExecuted(event: string) {
    !StartsWith(event, "executed:")
  }

  lemma NothingMetered(event: string)
    requires NotExecuted(event)
    ensures R.KindTokens(R.Classify(event)) == 0
  {
    hide R.ExecutedKind, R.BeforeColon;
  }

  // ---------------------------------------------------------------------------
  // The invariant of the trail
  // ---------------------------------------------------------------------------

  function Replayed(es: seq<Entry>, agent: string): nat {
    R.TotalTokens(R.SessionSteps(es, agent))
  }

  ghost predicate Trail(digest: Digest, g: State) {
    && Numbered(g.log)
    && Chained(digest, Entries(g.log))
    && forall a :: Replayed(Entries(g.log), a) == Counter(g.tokensMetered, a)
  }

  predicate CleanNames(call: ToolCall) {
    Clean(call.agent) && Clean(call.tool) && Clean(call.room)
  }

  predicate CleanCall(call: ToolCall) {
    CleanNames(call) && R.Absent(call.tool, "tokens=")
  }

  predicate CleanStep(step: Step) {
    match step
    case Mediate(call, _, _, _, _) => CleanCall(call)
    case Resolve(_, _, decider, _, _) => Clean(decider)
    case Refuse(UnknownAgent(agent)) => Clean(agent)
    case Refuse(UnmanagedAgent(agent)) => Clean(agent)
    case Refuse(PolicyDenied(call)) => CleanNames(call)
    case Note(actor, event) => Clean(actor) && Clean(event) && NotExecuted(event)
  }

  lemma ReplayedGrows(es: seq<Entry>, e: Entry, agent: string)
    ensures Replayed(es + [e], agent)
      == Replayed(es, agent) + if e.actor == agent then R.KindTokens(R.Classify(e.event)) else 0
  {
    hide R.Classify, R.KindTokens;
    assert (es + [e])[..|es|] == es;
    var steps := R.SessionSteps(es, agent);
    if e.actor == agent {
      var step := R.SessionStep(|es|, R.Classify(e.event), e.event);
      assert R.SessionSteps(es + [e], agent) == steps + [step];
      assert (steps + [step])[..|steps|] == steps;
    } else {
      assert R.SessionSteps(es + [e], agent) == steps + [];
      assert steps + [] == steps;
    }
  }

  /** One audited event, with what it meters. */
  lemma AuditedTrail(digest: Digest, g: State, actor: string, event: string)
    requires Numbered(g.log) && |g.log| < PAD_LIMIT && Chained(digest, Entries(g.log))
    requires Clean(actor) && Clean(event)
    ensures var g' := Audited(digest, g, actor, event);
      && Numbered(g'.log) && |g'.log| == |g.log| + 1 && Chained(digest, Entries(g'.log))
      && forall a :: Replayed(Entries(g'.log), a)
           == Replayed(Entries(g.log), a) + if a == actor then R.KindTokens(R.Classify(event)) else 0
  {
    hide Appended, Entries, Replayed, R.Classify, R.KindTokens, Chained;
    AppendedEntries(digest, g.log, actor, event);
    AppendKeepsChain(digest, g.log, actor, event);
    var e := Link(digest, actor, event, TipOf(Entries(g.log)));
    forall a ensures Replayed(Entries(g.log) + [e], a)
      == Replayed(Entries(g.log), a) + if a == actor then R.KindTokens(R.Classify(event)) else 0
    {
      ReplayedGrows(Entries(g.log), e, a);
    }
  }

  /** An event that is no execution leaves the totals alone. */
  lemma QuietTrail(digest: Digest, g: State, actor: string, event: string)
    requires Trail(digest, g) && |g.log| < PAD_LIMIT && Clean(actor)
    requires (Clean(event) && NotExecuted(event)) || Quiet(event)
    ensures Trail(digest, Audited(digest, g, actor, event))
    ensures |Audited(digest, g, actor, event).log| == |g.log| + 1
  {
    hide Entries, Replayed, R.Classify, R.KindTokens, Chained, Appended;
    FirstLetter(event);
    AuditedTrail(digest, g, actor, event);
    NothingMetered(event);
  }

  /** The trail depends on the log and the token counters only. */
  lemma SameTrail(digest: Digest, g: State, g': State)
    requires Trail(digest, g) && g'.log == g.log && g'.tokensMetered == g.tokensMetered
    ensures Trail(digest, g')
  {
    hide Entries, Replayed, Chained;
  }

  lemma ExecutedTextIsClean(tool: string, run: ToolOutcome)
    requires Clean(tool)
    ensures Clean(ExecutedText(tool, run))
  {
    ParsesBack(run.tokens);
  }

  lemma RanTrail(digest: Digest, g: State, call: ToolCall, run: ToolOutcome, now: nat)
    requires Trail(digest, g) && |g.log| < PAD_LIMIT && CleanCall(call)
    ensures Trail(digest, Ran(digest, g, call, run, now)) && |Ran(digest, g, call, run, now).log| == |g.log| + 1
  {
    hide Entries, Replayed, R.Classify, Chained, Appended, ExecutedText;
    ExecutedTextIsClean(call.tool, run);
    TokensReplay(call.tool, run);
    AuditedTrail(digest, TokensNoted(g, call.agent, run.tokens, now), call.agent, ExecutedText(call.tool, run));
  }

  /** Clean text that does not begin as an execution's entry does. */
  predicate Quiet(s: string) {
    s != "" && s[0] != 'e' && Clean(s)
  }

  lemma QuietJoin(a: string, b: string)
    ensures Quiet(a) && Clean(b) ==> Quiet(a + b)
    ensures a != "" && a[0] != 'e' && Clean(a) && Clean(b) ==> Quiet(a + b)
    ensures Quiet(a) ==> NotExecuted(a) && Clean(a)
    ensures Quiet(a + b) ==> NotExecuted(a + b) && Clean(a + b)
  {
    FirstLetter(a);
    FirstLetter(a + b);
  }

  lemma FirstLetter(s: string)
    ensures NotExecuted(s) || (s != "" && s[0] == 'e')
  {
    assert "executed:"[0] == 'e';
    if StartsWith(s, "executed:") {
      assert s[0] == "executed:"[0];
    }
  }

  // ---------------------------------------------------------------------------
  // Steps and runs
  // ---------------------------------------------------------------------------

  ghost predicate CleanQueue(g: State) {
    forall p | p in g.pending :: CleanCall(p.call)
  }

  lemma MediateTrail(digest: Digest, g: State, step: Step)
    requires Trail(digest, g) && |g.log| + 2 < PAD_LIMIT && step.Mediate? && CleanStep(step)
    ensures Trail(digest, Next(digest, g, step)) && |Next(digest, g, step).log| <= |g.log| + 2
  {
    hide Trail, Checked, Ran, Appended, Bumped, DailyEntry, R.Absent;
    var call, t := step.call, step.ticks;
    CheckedKeeps(g, call.agent, step.limits, step.actionClass, t);
    var (g1, decision) := Checked(g, call.agent, step.limits, step.actionClass, t);
    SameTrail(digest, g, g1);
    match decision
    case Admitted =>
      var g2 := Admission(g1, call.agent, t);
      if step.actionClass == Auto {
        var g3 := g2.(nextCallSeq := g2.nextCallSeq + 1);
        SameTrail(digest, g1, g3);
        QuietJoin("auto_allowed: ", call.tool);
        QuietTrail(digest, g3, call.agent, "auto_allowed: " + call.tool);
        RanTrail(digest, Audited(digest, g3, call.agent, "auto_allowed: " + call.tool), call, step.run, t.noteTokens);
      } else {
        var g3 := g2.(nextCallSeq := g2.nextCallSeq + 1, nextRequestId := g2.nextRequestId + 1);
        SameTrail(digest, g1, g3);
        QuietJoin("approval_requested: ", call.tool);
        QuietTrail(digest, g3, call.agent, "approval_requested: " + call.tool);
        SameTrail(digest, Audited(digest, g3, call.agent, "approval_requested: " + call.tool), Next(digest, g, step));
      }
    case _ =>
      RefusedTrail(digest, g, step);
  }

  lemma RefusedTrail(digest: Digest, g: State, step: Step)
    requires Trail(digest, g) && |g.log| + 2 < PAD_LIMIT && step.Mediate? && CleanStep(step)
    requires Checked(g, step.call.agent, step.limits, step.actionClass, step.ticks).1 != Decision.Admitted
    ensures Trail(digest, Next(digest, g, step)) && |Next(digest, g, step).log| <= |g.log| + 2
  {
    hide Trail, Checked, Appended, Bumped, R.Absent, Quiet;
    var call := step.call;
    CheckedKeeps(g, call.agent, step.limits, step.actionClass, step.ticks);
    var (g1, decision) := Checked(g, call.agent, step.limits, step.actionClass, step.ticks);
    SameTrail(digest, g, g1);
    var event := match decision
      case OutOfScope => "denied_by_scope: " + call.tool + " in " + call.room
      case RateLimited => "rate_limited: " + call.tool
      case OverCalls => "daily_budget_exceeded: " + call.tool
      case _ => "token_budget_exceeded: " + call.tool;
    RefusalText(call);
    QuietTrail(digest, g1, call.agent, event);
    SameTrail(digest, Audited(digest, g1, call.agent, event), Next(digest, g, step));
  }

  lemma RefusalText(call: ToolCall)
    requires CleanNames(call)
    ensures Quiet("denied_by_scope: " + call.tool + " in " + call.room)
    ensures Quiet("rate_limited: " + call.tool)
    ensures Quiet("daily_budget_exceeded: " + call.tool)
    ensures Quiet("token_budget_exceeded: " + call.tool)
    ensures Quiet("policy_denied: " + call.tool + " in " + call.room)
  {
    hide R.Absent, Quiet;
    QuietJoin("denied_by_scope: ", call.tool);
    QuietJoin("denied_by_scope: " + call.tool, " in ");
    QuietJoin("denied_by_scope: " + call.tool + " in ", call.room);
    QuietJoin("rate_limited: ", call.tool);
    QuietJoin("daily_budget_exceeded: ", call.tool);
    QuietJoin("token_budget_exceeded: ", call.tool);
    QuietJoin("policy_denied: ", call.tool);
    QuietJoin("policy_denied: " + call.tool, " in ");
    QuietJoin("policy_denied: " + call.tool + " in ", call.room);
  }

  lemma DecisionText(prefix: string, decider: string, tool: string)
    requires Quiet(prefix) && Clean(decider) && Clean(tool)
    ensures Quiet(prefix + decider + ": " + tool)
  {
    hide Quiet;
    QuietJoin(prefix, decider);
    QuietJoin(prefix + decider, ": ");
    QuietJoin(prefix + decider + ": ", tool);
  }

  lemma ResolveTrail(digest: Digest, g: State, step: Step)
    requires Trail(digest, g) && |g.log| + 2 < PAD_LIMIT && step.Resolve? && CleanStep(step) && CleanQueue(g)
    ensures Trail(digest, Next(digest, g, step)) && |Next(digest, g, step).log| <= |g.log| + 2
  {
    hide Trail, Ran, Appended, Bumped, R.Absent;
    match Position(g.pending, step.requestId)
    case None =>
    case Some(i) =>
      var call := g.pending[i].call;
      assert g.pending[i] in g.pending;
      var g1 := g.(pending := Without(g.pending, i));
      SameTrail(digest, g, g1);
      if step.approved {
        var event := "approved_by " + step.decider + ": " + call.tool;
        DecisionText("approved_by ", step.decider, call.tool);
        QuietTrail(digest, g1, call.agent, event);
        RanTrail(digest, Audited(digest, g1, call.agent, event), call, step.run, step.tick);
      } else {
        var event := "denied_by " + step.decider + ": " + call.tool;
        DecisionText("denied_by ", step.decider, call.tool);
        QuietTrail(digest, g1, call.agent, event);
        SameTrail(digest, Audited(digest, g1, call.agent, event), Next(digest, g, step));
      }
  }

  lemma RefuseTrail(digest: Digest, g: State, step: Step)
    requires Trail(digest, g) && |g.log| + 2 < PAD_LIMIT && (step.Refuse? || step.Note?) && CleanStep(step)
    ensures Trail(digest, Next(digest, g, step)) && |Next(digest, g, step).log| <= |g.log| + 2
  {
    hide Trail, Appended, Bumped, R.Absent;
    var (actor, event) := match step
      case Note(actor, event) => (actor, event)
      case Refuse(UnknownAgent(agent)) => (agent, "unknown_agent: " + agent)
      case Refuse(UnmanagedAgent(agent)) => (agent, "unmanaged_agent: " + agent)
      case Refuse(PolicyDenied(call)) => (call.agent, "policy_denied: " + call.tool + " in " + call.room)
      case _ => ("", "");
    if step.Refuse? {
      match step.why
      case UnknownAgent(agent) => QuietJoin("unknown_agent: ", agent);
      case UnmanagedAgent(agent) => QuietJoin("unmanaged_agent: ", agent);
      case PolicyDenied(call) => RefusalText(call);
    }
    QuietTrail(digest, g, actor, event);
    SameTrail(digest, Audited(digest, g, actor, event), Next(digest, g, step));
  }

  lemma QueueStaysClean(digest: Digest, w: World, step: Step)
    requires CleanQueue(w.state) && CleanStep(step)
    ensures CleanQueue(After(digest, w, step).state)
  {
    hide CleanCall, After, MoveOf;
    StepMoves(digest, w, step);
    MoveKeepsClean(DeskOf(w), MoveOf(w.state, step));
    QueuedCall(w.state, step);
  }

  lemma QueuedCall(g: State, step: Step)
    ensures MoveOf(g, step).Enqueue? ==> step.Mediate? && MoveOf(g, step).entry.call == step.call
  {
    hide Checked;
  }

  lemma MoveKeepsClean(d: Desk, m: Move)
    requires Allowed(d, m)
    ensures forall p | p in Moved(d, m).pending :: p in d.pending || (m.Enqueue? && p == m.entry)
  {
  }

  lemma {:induction false} RunKeepsTrail(digest: Digest, w: World, steps: seq<Step>)
    requires Trail(digest, w.state) && CleanQueue(w.state) && |w.state.log| + 2 * |steps| < PAD_LIMIT
    requires forall s | s in steps :: CleanStep(s)
    ensures Trail(digest, Run(digest, w, steps).state)
    decreases |steps|
  {
    hide Trail, CleanQueue, CleanStep, Next;
    if steps != [] {
      var step := steps[0];
      if step.Mediate? {
        MediateTrail(digest, w.state, step);
      } else if step.Resolve? {
        ResolveTrail(digest, w.state, step);
      } else {
        RefuseTrail(digest, w.state, step);
      }
      QueueStaysClean(digest, w, step);
      RunKeepsTrail(digest, After(digest, w, step), steps[1..]);
    }
  }

  /**
   Every run leaves a log that verifies, and for every agent the tokens replayed from the log are
   the tokens metered. The run is short enough for its entries to be numbered in 20 digits.
   */
  lemma EveryRunIsAudited(digest: Digest, steps: seq<Step>, agent: string)
    requires 2 * |steps| < PAD_LIMIT && forall s | s in steps :: CleanStep(s)
    ensures var g := Run(digest, BEGINNING, steps).state;
      && Chained(digest, Entries(g.log))
      && R.TotalTokens(R.SessionSteps(Entries(g.log), agent)) == Counter(g.tokensMetered, agent)
  {
    hide Run, CleanStep;
    BeginsAudited(digest);
    RunKeepsTrail(digest, BEGINNING, steps);
    assert Replayed(Entries(Run(digest, BEGINNING, steps).state.log), agent)
      == Counter(Run(digest, BEGINNING, steps).state.tokensMetered, agent);
  }

  // ---------------------------------------------------------------------------
  // Tools whose names hold a token count
  // ---------------------------------------------------------------------------

  /** A call that is admitted and runs at once: its grant allows it and sets no limits. */
  function AutoCall(call: ToolCall, run: ToolOutcome): Step {
    Mediate(call, Limits(0, 0, 0), Auto, Ticks(0, 0, 0, 0, 0, 0), run)
  }

  /** What the gateway's first call leaves: the tokens it metered, and those its log replays. */
  lemma FirstCall(digest: Digest, call: ToolCall, run: ToolOutcome)
    requires Clean(call.agent) && Clean(call.tool)
    ensures var g := Run(digest, BEGINNING, [AutoCall(call, run)]).state;
      && Counter(g.tokensMetered, call.agent) == run.tokens
      && Replayed(Entries(g.log), call.agent) == R.KindTokens(R.Classify(ExecutedText(call.tool, run)))
  {
    hide Entries, Replayed, R.Classify, R.KindTokens, Chained, Appended, ExecutedText, Quiet, Trail;
    var t := Ticks(0, 0, 0, 0, 0, 0);
    var g1 := Admission(INITIAL, call.agent, t);
    var g2 := g1.(nextCallSeq := g1.nextCallSeq + 1);
    var event := "auto_allowed: " + call.tool;
    BeginsAudited(digest);
    SameTrail(digest, INITIAL, g2);
    QuietJoin("auto_allowed: ", call.tool);
    QuietTrail(digest, g2, call.agent, event);
    var g3 := Audited(digest, g2, call.agent, event);
    var g4 := TokensNoted(g3, call.agent, run.tokens, 0);
    ExecutedTextIsClean(call.tool, run);
    TrailIs(digest, g3, call.agent);
    AuditedTrail(digest, g4, call.agent, ExecutedText(call.tool, run));
    OneStep(digest, AutoCall(call, run));
  }

  lemma TrailIs(digest: Digest, g: State, agent: string)
    requires Trail(digest, g)
    ensures Numbered(g.log) && Chained(digest, Entries(g.log))
    ensures Replayed(Entries(g.log), agent) == Counter(g.tokensMetered, agent)
  {
  }

  lemma OneStep(digest: Digest, step: Step)
    ensures Run(digest, BEGINNING, [step]) == After(digest, BEGINNING, step)
  {
    assert [step][1..] == [];
    assert Run(digest, After(digest, BEGINNING, step), []) == After(digest, BEGINNING, step);
  }

  ghost predicate TotalsAgree(digest: Digest, call: ToolCall, run: ToolOutcome) {
    var g := Run(digest, BEGINNING, [AutoCall(call, run)]).state;
    R.TotalTokens(R.SessionSteps(Entries(g.log), call.agent)) == Counter(g.tokensMetered, call.agent)
  }

  /** What appending an event with the separator can add to the replayed total: nothing, or what its first part holds. */
  lemma DirtyAppend(digest: Digest, log: Column, agent: string, head: string, tail: string)
    requires Numbered(log) && |log| < PAD_LIMIT && Clean(agent) && Clean(head)
    ensures var log' := Appended(digest, log, agent, head + [SEP] + tail);
      && Numbered(log') && |log'| == |log| + 1
      && var more := Replayed(Entries(log'), agent) - Replayed(Entries(log), agent);
         more == 0 || more == R.KindTokens(R.Classify(head))
  {
    hide Appended, Entries, Replayed, R.Classify, R.KindTokens, Encode, Decode;
    var e := Link(digest, agent, head + [SEP] + tail, TipOf(Entries(log)));
    AppendedEntries(digest, log, agent, head + [SEP] + tail);
    DirtyEntryIsCut(e, head, tail);
    match Decode(Encode(e))
    case Some(d) => ReplayedGrows(Entries(log), d, agent);
    case None => assert Entries(log) + [] == Entries(log);
  }

  /** The two entries a first call that runs at once leaves, and its meter. */
  lemma AutoCallLog(digest: Digest, call: ToolCall, run: ToolOutcome)
    ensures var g := Run(digest, BEGINNING, [AutoCall(call, run)]).state;
      && g.log == Appended(digest, Appended(digest, map[], call.agent, "auto_allowed: " + call.tool), call.agent, ExecutedText(call.tool, run))
      && Counter(g.tokensMetered, call.agent) == run.tokens
  {
    hide Appended, ExecutedText;
    OneStep(digest, AutoCall(call, run));
  }

  lemma CutTexts(tool: string, run: ToolOutcome, head: string, tail: string)
    requires tool == head + [SEP] + tail
    ensures "auto_allowed: " + tool == ("auto_allowed: " + head) + [SEP] + tail
    ensures ExecutedText(tool, run)
      == ("executed: " + head) + [SEP] + (tail + " ok=" + BoolText(run.ok) + " tokens=" + Decimal(run.tokens))
    ensures Clean(head) ==> Clean("auto_allowed: " + head) && Clean("executed: " + head)
  {
    hide Decimal;
  }

  /** The first call of a tool with the separator in its name: what is replayed does not depend on the run. */
  lemma FirstDirtyCall(digest: Digest, call: ToolCall, run: ToolOutcome, head: string, tail: string)
    requires Clean(call.agent) && Clean(head) && call.tool == head + [SEP] + tail
    ensures var g := Run(digest, BEGINNING, [AutoCall(call, run)]).state;
      && Counter(g.tokensMetered, call.agent) == run.tokens
      && var total := Replayed(Entries(g.log), call.agent);
         total == 0 || total == R.KindTokens(R.Classify("executed: " + head))
  {
    hide Entries, Replayed, R.Classify, R.KindTokens, Chained, Appended, Quiet, Trail, Decimal, ExecutedText, Run, Clean;
    AutoCallLog(digest, call, run);
    CutTexts(call.tool, run, head, tail);
    BeginsAudited(digest);
    TrailIs(digest, INITIAL, call.agent);
    DirtyAppend(digest, map[], call.agent, "auto_allowed: " + head, tail);
    FirstLetter("auto_allowed: " + head);
    NothingMetered("auto_allowed: " + head);
    var more := tail + " ok=" + BoolText(run.ok) + " tokens=" + Decimal(run.tokens);
    DirtyAppend(digest, Appended(digest, map[], call.agent, "auto_allowed: " + call.tool), call.agent, "executed: " + head, more);
  }

  /** A tool name with the separator misreports some run's tokens. */
  lemma DirtyForged(digest: Digest, call: ToolCall) returns (run: ToolOutcome)
    requires Clean(call.agent) && !Clean(call.tool)
    ensures !TotalsAgree(digest, call, run)
  {
    hide R.Classify, Run, R.KindTokens;
    var (head, tail) := SplitOnce(call.tool, SEP).value;
    var fixed := R.KindTokens(R.Classify("executed: " + head));
    run := ToolOutcome(true, "", if fixed == 1 then 2 else 1);
    FirstDirtyCall(digest, call, run, head, tail);
  }

  /**
   The condition on tool names is exact: a tool whose name holds `tokens=` or the log's separator has
   a first admitted call after which the replayed total is not the metered one.
   */
  lemma TotalsAgreeIff(digest: Digest, call: ToolCall)
    requires Clean(call.agent)
    ensures (forall run: ToolOutcome :: TotalsAgree(digest, call, run)) <==> Clean(call.tool) && R.Absent(call.tool, "tokens=")
  {
    hide R.Classify, ExecutedText, R.Absent, Run, R.KindTokens;
    if !Clean(call.tool) {
      var run := DirtyForged(digest, call);
    } else if R.Absent(call.tool, "tokens=") {
      forall run: ToolOutcome ensures TotalsAgree(digest, call, run) {
        FirstCall(digest, call, run);
        TokensReplay(call.tool, run);
      }
    } else {
      var run := TokensForged(call.tool);
      FirstCall(digest, call, run);
      assert !TotalsAgree(digest, call, run);
    }
  }

  lemma BeginsAudited(digest: Digest)
    ensures Trail(digest, INITIAL) && CleanQueue(INITIAL) && |INITIAL.log| == 0
  {
    SortedKeysAreKeys(map[]);
    assert Scan(map[]) == [];
  }
}
