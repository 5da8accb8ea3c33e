/** What a grant and a policy together make of a call, exactly. */
module GatewayPolicy {
  import opened Gateway
  import opened AgentGateway
  import opened Orders
  import opened Text

  /** The grant covers the tool and the room. */
  predicate Covers(grant: Grant, call: ToolCall) {
    call.room in grant.rooms && call.tool in grant.tools
  }

  /** The class configured for a tool: the first override that names it, else the default. */
  ghost predicate Configures(grant: Grant, tool: string, c: ActionClass) {
    || (exists i :: Overrides(grant.overrides, tool, i, c))
    || (c == grant.defaultClass && forall i | 0 <= i < |grant.overrides| :: grant.overrides[i].0 != tool)
  }

  predicate Overrides(overrides: seq<(string, ActionClass)>, tool: string, i: nat, c: ActionClass) {
    i < |overrides| && overrides[i] == (tool, c) && forall j | 0 <= j < i :: overrides[j].0 != tool
  }

  /** Every condition that the rule names holds of the call. */
  ghost predicate Applies(rule: PolicyRule, call: ToolCall) {
    && (forall tool | rule.tool == Some(tool) :: call.tool == tool)
    && (forall room | rule.room == Some(room) :: call.room == room)
    && (forall needle | rule.argsContain == Some(needle) :: exists i :: OccursAt(call.args, needle, i))
  }

  predicate OccursAt(s: string, needle: string, i: nat) {
    i <= |s| && needle <= s[i..]
  }

  /** What the policy says of the call: the first rule that applies, else the default. */
  ghost predicate Says(policy: PolicySet, call: ToolCall, effect: Effect) {
    || (exists i :: Decides(policy.rules, call, i, effect))
    || (effect == policy.defaultEffect && forall i | 0 <= i < |policy.rules| :: !Applies(policy.rules[i], call))
  }

  ghost predicate Decides(rules: seq<PolicyRule>, call: ToolCall, i: nat, effect: Effect) {
    i < |rules| && Applies(rules[i], call) && rules[i].effect == effect && forall j | 0 <= j < i :: !Applies(rules[j], call)
  }

  lemma {:induction false} OverrideIs(grant: Grant, entries: seq<(string, ActionClass)>, tool: string)
    ensures var c := grant.Override(entries, tool);
      || (exists i :: Overrides(entries, tool, i, c))
      || (c == grant.defaultClass && forall i | 0 <= i < |entries| :: entries[i].0 != tool)
  {
    if entries != [] {
      var c := grant.Override(entries, tool);
      if entries[0].0 == tool {
        assert Overrides(entries, tool, 0, c);
      } else {
        var rest := entries[1..];
        assert forall j | 1 <= j < |entries| :: entries[j] == rest[j - 1];
        OverrideIs(grant, rest, tool);
        if i: nat :| Overrides(rest, tool, i, c) {
          assert Overrides(entries, tool, i + 1, c);
        }
      }
    }
  }

  lemma ClassifyIs(grant: Grant, call: ToolCall, c: ActionClass)
    ensures grant.Classify(call.tool, call.room) == c
      <==> if Covers(grant, call) then Configures(grant, call.tool, c) else c == Forbidden
  {
    OverrideIs(grant, grant.overrides, call.tool);
    OneOverride(grant.overrides, call.tool);
  }

  lemma OneOverride(overrides: seq<(string, ActionClass)>, tool: string)
    ensures forall i, j, c, d :: Overrides(overrides, tool, i, c) && Overrides(overrides, tool, j, d) ==> i == j
  {
  }

  lemma FindIs(s: string, needle: string)
    ensures Find(s, needle).Some? <==> exists i :: OccursAt(s, needle, i)
  {
    var at := Find(s, needle);
    if at.Some? {
      assert s[at.value..at.value + |needle|] <= s[at.value..];
      assert OccursAt(s, needle, at.value);
    }
  }

  lemma MatchesIs(rule: PolicyRule, call: ToolCall)
    ensures rule.Matches(call) <==> Applies(rule, call)
  {
    if rule.argsContain.Some? {
      FindIs(call.args, rule.argsContain.value);
    }
    assert rule.tool.Some? ==> rule.tool == Some(rule.tool.value);
    assert rule.room.Some? ==> rule.room == Some(rule.room.value);
  }

  lemma EvaluateIs(policy: PolicySet, call: ToolCall, effect: Effect)
    ensures policy.Evaluate(call) == effect <==> Says(policy, call, effect)
  {
    hide Applies;
    forall i | 0 <= i < |policy.rules| ensures policy.rules[i].Matches(call) <==> Applies(policy.rules[i], call) {
      MatchesIs(policy.rules[i], call);
    }
    var first := FirstMatch(policy.rules, call);
    assert first.Some? ==> Decides(policy.rules, call, first.value, policy.rules[first.value].effect);
    OneDecides(policy.rules, call);
  }

  lemma OneDecides(rules: seq<PolicyRule>, call: ToolCall)
    ensures forall i, j, e, f :: Decides(rules, call, i, e) && Decides(rules, call, j, f) ==> i == j
  {
  }

  /**
   Under a grant and a policy a call runs at once exactly if the grant covers it and configures it so and
   the policy allows it; it goes to a human exactly if it is covered, not forbidden and not denied, and
   the grant or the policy asks for review; otherwise it is refused.
   */
  lemma PolicyClassIs(grant: Grant, policy: PolicySet, call: ToolCall)
    ensures var c := Refine(grant.Classify(call.tool, call.room), policy.Evaluate(call));
      var auto, review := Configures(grant, call.tool, Auto), Configures(grant, call.tool, Review);
      var allow, ask := Says(policy, call, Allow), Says(policy, call, RequireReview);
      && (c == Auto <==> Covers(grant, call) && auto && allow)
      && (c == Review <==> Covers(grant, call) && ((review && allow) || ((auto || review) && ask)))
      && (c == Forbidden <==> !Covers(grant, call) || Configures(grant, call.tool, Forbidden) || Says(policy, call, Deny))
  {
    hide Configures, Says;
    ClassifyIs(grant, call, Auto);
    ClassifyIs(grant, call, Review);
    ClassifyIs(grant, call, Forbidden);
    EvaluateIs(policy, call, Allow);
    EvaluateIs(policy, call, RequireReview);
    EvaluateIs(policy, call, Deny);
  }
}
