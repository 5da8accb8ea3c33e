/**
 Replaying agent sessions from the audit log: each entry is classified from its text, and each
 agent's entries are collected in log order.
 */
module Replay {
  import opened Audit
  import opened Orders
  import opened Text

  datatype DenyReason = Scope | RateLimit | DailyCallBudget | TokenBudget | Policy | Human

  datatype StepKind =
    | Denied(reason: DenyReason)
    | AutoAllowed
    | ApprovalRequested
    | Approved
    | Executed(ok: bool, tokens: U64)
    | ResourceAccess(granted: bool)
    | Discovery
    | Memory
    | Delegated(delegator: string)
    | UnmanagedAgent
    | Other

  datatype SessionStep = SessionStep(position: nat, kind: StepKind, event: string)

  datatype SessionReplay = SessionReplay(agent: string, steps: seq<SessionStep>, chainIntact: bool)

  // ---------------------------------------------------------------------------
  // Classification
  // ---------------------------------------------------------------------------

  predicate IsWhitespace(c: char) {
    || c in ['\t', '\n', '\U{b}', '\U{c}', '\r', ' ', '\U{85}', '\U{a0}', '\U{1680}']
    || '\U{2000}' <= c <= '\U{200a}'
    || c in ['\U{2028}', '\U{2029}', '\U{202f}', '\U{205f}', '\U{3000}']
  }

  /** The characters up to the first whitespace. */
  function WordOf(s: string): string {
    if s == "" || IsWhitespace(s[0]) then "" else [s[0]] + WordOf(s[1..])
  }

  /** `split_whitespace().next()` */
  function FirstWord(s: string): Option<string> {
    if s == "" then None
    else if IsWhitespace(s[0]) then FirstWord(s[1..])
    else Some(WordOf(s))
  }

  /** parse_kv: the word that follows the first occurrence of `key`. */
  function ParseKv(event: string, key: string): Option<string> {
    match Find(event, key)
    case None => None
    case Some(i) =>
      var rest := event[i + |key|..];
      match FirstWord(rest)
      case Some(word) => Some(word)
      case None => Some(rest)
  }

  /** What precedes the first ": ". */
  function BeforeColon(s: string): string {
    match Find(s, ": ")
    case Some(i) => s[..i]
    case None => s
  }

  function ExecutedKind(event: string): StepKind {
    Executed(
      match ParseKv(event, "ok=") case Some(word) => word == "true" case None => false,
      match ParseKv(event, "tokens=")
      case Some(word) => (match ParseU64(word) case Some(n) => n case None => 0)
      case None => 0)
  }

  function Classify(event: string): StepKind {
    if StartsWith(event, "denied_by_scope") then Denied(Scope)
    else if StartsWith(event, "rate_limited") then Denied(RateLimit)
    else if StartsWith(event, "daily_budget_exceeded") then Denied(DailyCallBudget)
    else if StartsWith(event, "token_budget_exceeded") then Denied(TokenBudget)
    else if StartsWith(event, "policy_denied") then Denied(Policy)
    else if StartsWith(event, "denied_by ") then Denied(Human)
    else if StartsWith(event, "approved_by ") then Approved
    else if StartsWith(event, "delegated_by ") then Delegated(BeforeColon(event[|"delegated_by "|..]))
    else if StartsWith(event, "auto_allowed") then AutoAllowed
    else if StartsWith(event, "approval_requested") then ApprovalRequested
    else if StartsWith(event, "executed:") then ExecutedKind(event)
    else AccessKind(event)
  }

  /** The texts that are not about tool calls. */
  function AccessKind(event: string): StepKind {
    if StartsWith(event, "resource_read") then ResourceAccess(true)
    else if StartsWith(event, "resource_denied") then ResourceAccess(false)
    else if StartsWith(event, "resources_listed") || StartsWith(event, "tools_listed") then Discovery
    else if StartsWith(event, "memory_denied") then Denied(Scope)
    else if StartsWith(event, "memory_") then Memory
    else if StartsWith(event, "unmanaged_agent") then UnmanagedAgent
    else Other
  }

  // ---------------------------------------------------------------------------
  // Reading an execution back
  // ---------------------------------------------------------------------------

  predicate Absent(s: string, key: string) {
    Find(s, key).None?
  }

  lemma AbsentIs(s: string, key: string)
    ensures Absent(s, key) <==> forall i | 0 <= i <= |s| :: !(key <= s[i..])
  {
    var found := Find(s, key);
    if found.Some? {
      assert key <= s[found.value..];
    }
  }

  lemma CharInSuffix(s: string, i: nat, key: string, c: char)
    requires i <= |s| && key <= s[i..] && c in key
    ensures c in s
  {
    var k :| 0 <= k < |key| && key[k] == c;
    assert s[i..][k] == c;
  }

  lemma AbsentByChar(s: string, key: string, c: char)
    requires c in key
    ensures Absent(s, key) || c in s
  {
    if Find(s, key).Some? {
      CharInSuffix(s, Find(s, key).value, key, c);
    }
  }

  lemma FindIs(s: string, key: string, p: nat)
    requires p <= |s| && key <= s[p..]
    requires forall i | 0 <= i <= |s| && key <= s[i..] :: i >= p
    ensures Find(s, key) == Some(p)
  {
    hide Find;
    var found := Find(s, key);
    if found.Some? {
      assert key <= s[found.value..];
    }
  }

  /** Where a key can occur in two parts joined by a space: in either part, or over the space. */
  lemma Located(a: string, b: string, key: string, i: nat)
    requires key != "" && i <= |a + " " + b| && key <= (a + " " + b)[i..]
    ensures (i <= |a| && key <= a[i..]) || (i > |a| && key <= b[i - |a| - 1..]) || ' ' in key
  {
    var s := a + " " + b;
    if i > |a| {
      assert s[i..] == b[i - |a| - 1..];
    } else if i + |key| <= |a| {
      assert s[i..][..|key|] == a[i..][..|key|];
    } else {
      assert s[|a|] == ' ' && s[i..][|a| - i] == s[|a|];
      assert key[|a| - i] == ' ';
    }
  }

  /** A key without spaces that is in neither part is not in the parts joined by a space. */
  lemma AbsentAcross(a: string, b: string, key: string)
    requires Absent(a, key) && Absent(b, key) && ' ' !in key && key != ""
    ensures Absent(a + " " + b, key)
  {
    var s := a + " " + b;
    AbsentIs(a, key);
    AbsentIs(b, key);
    AbsentIs(s, key);
    forall i | 0 <= i <= |s| && key <= s[i..]
      ensures (i <= |a| && key <= a[i..]) || (i > |a| && key <= b[i - |a| - 1..])
    {
      Located(a, b, key, i);
    }
  }

  lemma FirstFoundAfter(a: string, key: string, tail: string)
    requires Absent(a, key) && ' ' !in key && key != ""
    ensures Find(a + " " + key + tail, key) == Some(|a| + 1)
    ensures (a + " " + key + tail)[|a| + 1 + |key|..] == tail
  {
    var s := a + " " + key + tail;
    assert s == a + " " + (key + tail);
    AbsentIs(a, key);
    assert s[|a| + 1..] == key + tail;
    forall i | 0 <= i <= |s| && key <= s[i..] ensures i > |a| {
      Located(a, key + tail, key, i);
    }
    FindIs(s, key, |a| + 1);
  }

  lemma {:induction false} WordBeforeSpace(word: string, tail: string)
    requires forall c | c in word :: !IsWhitespace(c)
    requires tail == "" || IsWhitespace(tail[0])
    ensures WordOf(word + tail) == word
  {
    if word == "" {
      assert word + tail == tail;
    } else {
      assert (word + tail)[1..] == word[1..] + tail;
      WordBeforeSpace(word[1..], tail);
    }
  }

  lemma KeyReadsBack(a: string, key: string, word: string, tail: string)
    requires Absent(a, key) && ' ' !in key && key != ""
    requires word != "" && forall c | c in word :: !IsWhitespace(c)
    requires tail == "" || IsWhitespace(tail[0])
    ensures ParseKv(a + " " + key + (word + tail), key) == Some(word)
  {
    hide Find, WordOf;
    FirstFoundAfter(a, key, word + tail);
    WordBeforeSpace(word, tail);
    assert (word + tail)[0] == word[0];
  }

  lemma WithinFirst(a: string, rest: string, key: string, i: nat)
    requires i + |key| <= |a|
    ensures key <= (a + rest)[i..] <==> key <= a[i..]
  {
    assert (a + rest)[i..][..|key|] == a[i..][..|key|];
  }

  /** A key in the first part is found there, whatever follows the space. */
  lemma FoundInFirst(a: string, b: string, key: string)
    requires Find(a, key).Some? && key != ""
    ensures Find(a + " " + b, key) == Find(a, key)
  {
    hide Find;
    var p, s := Find(a, key).value, a + " " + b;
    assert s == a + (" " + b) && key <= a[p..];
    forall i | 0 <= i <= p ensures key <= s[i..] <==> key <= a[i..] {
      WithinFirst(a, " " + b, key, i);
    }
    FindIs(s, key, p);
  }

  lemma {:induction false} WordStops(s: string, t: string)
    ensures WordOf(s + " " + t) == WordOf(s)
  {
    if s == "" {
      assert s + " " + t == " " + t;
    } else {
      assert (s + " " + t)[1..] == s[1..] + " " + t;
      WordStops(s[1..], t);
    }
  }

  /** The first word of two parts is that of the first part, if it has one. */
  lemma {:induction false} FirstWordAcross(s: string, t: string)
    ensures FirstWord(s + " " + t) == if FirstWord(s).Some? then FirstWord(s) else FirstWord(t)
  {
    if s == "" {
      assert s + " " + t == " " + t && (" " + t)[1..] == t;
    } else if IsWhitespace(s[0]) {
      assert (s + " " + t)[1..] == s[1..] + " " + t;
      FirstWordAcross(s[1..], t);
    } else {
      WordStops(s, t);
    }
  }

  /** The word that follows the first occurrence of a key within `s`. */
  function OwnWord(s: string, key: string): Option<string>
    requires !Absent(s, key)
  {
    FirstWord(s[Find(s, key).value + |key|..])
  }

  /** If the first part holds the key, it alone decides the word, unless it ends with the key. */
  lemma OwnKeyDecides(a: string, b: string, key: string)
    requires !Absent(a, key) && key != "" && FirstWord(b).Some?
    ensures ParseKv(a + " " + b, key) == if OwnWord(a, key).Some? then OwnWord(a, key) else FirstWord(b)
  {
    hide Find, FirstWord, WordOf;
    FoundInFirst(a, b, key);
    var end := Find(a, key).value + |key|;
    FirstWordAcross(a[end..], b);
    assert (a + " " + b)[end..] == a[end..] + " " + b;
  }

  // ---------------------------------------------------------------------------
  // Sessions
  // ---------------------------------------------------------------------------

  /** The steps of one agent, with their positions in the whole log. */
  function SessionSteps(es: seq<Entry>, agent: string): seq<SessionStep> {
    if es == [] then []
    else
      var n := |es| - 1;
      SessionSteps(es[..n], agent) +
      if es[n].actor == agent then [SessionStep(n, Classify(es[n].event), es[n].event)] else []
  }

  function TotalTokens(steps: seq<SessionStep>): nat {
    if steps == [] then 0
    else TotalTokens(steps[..|steps| - 1]) + KindTokens(steps[|steps| - 1].kind)
  }

  function KindTokens(kind: StepKind): nat {
    match kind
    case Executed(_, tokens) => tokens
    case _ => 0
  }

  /** The agents of a log in order of first appearance. */
  function Agents(es: seq<Entry>): seq<string> {
    if es == [] then []
    else
      var rest := Agents(es[..|es| - 1]);
      if es[|es| - 1].actor in rest then rest else rest + [es[|es| - 1].actor]
  }

  method ReplaySession(es: seq<Entry>, intact: bool, agent: string) returns (r: SessionReplay)
    ensures r == SessionReplay(agent, SessionSteps(es, agent), intact)
  {
    hide Classify;
    var steps := [];
    for i := 0 to |es|
      invariant steps == SessionSteps(es[..i], agent)
    {
      assert es[..i + 1][..i] == es[..i];
      if es[i].actor == agent {
        steps := steps + [SessionStep(i, Classify(es[i].event), es[i].event)];
      } else {
        assert steps + [] == steps;
      }
    }
    assert es[..|es|] == es;
    r := SessionReplay(agent, steps, intact);
  }

  method ReplayAll(es: seq<Entry>, intact: bool) returns (r: seq<SessionReplay>)
    ensures |r| == |Agents(es)|
    ensures forall k | 0 <= k < |r| :: r[k] == SessionReplay(Agents(es)[k], SessionSteps(es, Agents(es)[k]), intact)
  {
    hide SessionSteps;
    var order := [];
    for i := 0 to |es|
      invariant order == Agents(es[..i])
    {
      assert es[..i + 1][..i] == es[..i];
      if es[i].actor !in order {
        order := order + [es[i].actor];
      }
    }
    assert es[..|es|] == es;
    r := [];
    for k := 0 to |order|
      invariant |r| == k
      invariant forall j | 0 <= j < k :: r[j] == SessionReplay(order[j], SessionSteps(es, order[j]), intact)
    {
      var session := ReplaySession(es, intact, order[k]);
      r := r + [session];
    }
  }

  // ---------------------------------------------------------------------------
  // Sessions partition the log
  // ---------------------------------------------------------------------------

  predicate StepIsOf(es: seq<Entry>, agent: string, step: SessionStep) {
    && step.position < |es|
    && es[step.position].actor == agent
    && step.event == es[step.position].event
    && step.kind == Classify(step.event)
  }

  predicate InOrder(steps: seq<SessionStep>) {
    forall j, k | 0 <= j < k < |steps| :: steps[j].position < steps[k].position
  }

  predicate InSession(es: seq<Entry>, agent: string, i: int) {
    exists k | 0 <= k < |SessionSteps(es, agent)| :: SessionSteps(es, agent)[k].position == i
  }

  /** A session is exactly its agent's entries, in log order, each under its own position. */
  lemma {:induction false} SessionIsExact(es: seq<Entry>, agent: string)
    ensures forall step | step in SessionSteps(es, agent) :: StepIsOf(es, agent, step)
    ensures InOrder(SessionSteps(es, agent))
    ensures forall i :: InSession(es, agent, i) <==> 0 <= i < |es| && es[i].actor == agent
  {
    hide Classify;
    if es != [] {
      var n := |es| - 1;
      SessionIsExact(es[..n], agent);
      var before := SessionSteps(es[..n], agent);
      var steps := SessionSteps(es, agent);
      forall step | step in before ensures StepIsOf(es, agent, step) && step.position < n {
        assert StepIsOf(es[..n], agent, step);
        assert es[..n][step.position] == es[step.position];
      }
      forall i ensures InSession(es, agent, i) <==> 0 <= i < |es| && es[i].actor == agent {
        SessionGrows(es, agent, i);
      }
    }
  }

  lemma SessionGrows(es: seq<Entry>, agent: string, i: int)
    requires es != []
    ensures InSession(es, agent, i)
       <==> InSession(es[..|es| - 1], agent, i) || (i == |es| - 1 && es[i].actor == agent)
  {
    hide Classify;
    var n := |es| - 1;
    var before := SessionSteps(es[..n], agent);
    var steps := SessionSteps(es, agent);
    if InSession(es[..n], agent, i) {
      var k :| 0 <= k < |before| && before[k].position == i;
      assert steps[k].position == i;
    }
    if i == n && es[n].actor == agent {
      assert steps[|before|].position == i;
    }
  }

  /** Every actor has one session. */
  lemma {:induction false} AgentsAreActors(es: seq<Entry>)
    ensures NoRepeats(Agents(es))
    ensures forall a :: a in Agents(es) <==> exists i | 0 <= i < |es| :: es[i].actor == a
  {
    if es != [] {
      var n := |es| - 1;
      var rest := Agents(es[..n]);
      AgentsAreActors(es[..n]);
      forall a ensures a in Agents(es) <==> exists i | 0 <= i < |es| :: es[i].actor == a {
        if a in rest {
          var i :| 0 <= i < n && es[..n][i].actor == a;
          assert es[i].actor == a;
        }
        if i :| 0 <= i < |es| && es[i].actor == a {
          if i < n {
            assert es[..n][i].actor == a;
          }
        }
      }
    }
  }

  /** Every position of the log is in exactly one session: that of its actor. */
  lemma SessionsPartition(es: seq<Entry>, i: nat)
    requires i < |es|
    ensures es[i].actor in Agents(es)
    ensures forall a :: InSession(es, a, i) <==> a == es[i].actor
  {
    hide InSession, Agents;
    AgentsAreActors(es);
    forall a ensures InSession(es, a, i) <==> a == es[i].actor {
      SessionIsExact(es, a);
    }
  }
}
