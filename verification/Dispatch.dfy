/** Dispatching derived actions through the policy gate to the runner. */
module Dispatch {
  import opened Wrappers
  import opened Policy

  /** The stored policy an executor consults for its tenant. */
  datatype TenantPolicy = TenantPolicy(tenant: string, stored: seq<StoredRule>, permissions: seq<Permission>,
                                       production: bool, glob: Glob)

  /** What the gate does with an action. `Missing` is the missing-policy error. */
  datatype Gate = Ungated | Cleared | Blocked | Missing

  function GateOf(policy: Option<TenantPolicy>, preApproved: set<string>, a: Action): Gate
  {
    if policy.None? || a.id in preApproved then Ungated
    else
      var p := policy.value;
      var rules := ResolveRules(p.stored, p.tenant, p.production);
      if rules.None? then Missing
      else if Decide(GrantsOf(p.permissions, p.tenant), rules.value, a, p.glob).Allowed? then Cleared
      else Blocked
  }

  datatype Result = Result(actionId: string, failed: bool, denied: bool)

  datatype AuditRow = AuditRow(actionId: string, allowed: bool)

  datatype Outcome = Done(failed: bool, results: seq<Result>) | PolicyMissing

  function RunPart(gate: Gate, a: Action): seq<Action>
  {
    if gate.Ungated? || gate.Cleared? then [a] else []
  }

  function AuditPart(gate: Gate, a: Action): seq<AuditRow>
  {
    if gate.Cleared? || gate.Blocked? then [AuditRow(a.id, gate.Cleared?)] else []
  }

  /** The gates of the leading actions, each under the policy in force at its turn. */
  function GatesOf(policies: seq<Option<TenantPolicy>>, pre: set<string>, actions: seq<Action>): (gates: seq<Gate>)
    requires |policies| <= |actions|
    ensures |gates| == |policies|
  {
    seq(|policies|, i requires 0 <= i < |policies| => GateOf(policies[i], pre, actions[i]))
  }

  lemma GatesAppend(policies: seq<Option<TenantPolicy>>, p: Option<TenantPolicy>, pre: set<string>, actions: seq<Action>)
    requires |policies| < |actions|
    ensures GatesOf(policies + [p], pre, actions) ==
            GatesOf(policies, pre, actions) + [GateOf(p, pre, actions[|policies|])]
  {
  }

  /** The actions that reach the runner, in order. */
  function Dispatched(gates: seq<Gate>, actions: seq<Action>): seq<Action>
    requires |gates| == |actions|
  {
    if actions == [] then []
    else
      var n := |actions| - 1;
      Dispatched(gates[..n], actions[..n]) + RunPart(gates[n], actions[n])
  }

  /** One audit row per evaluated action, in order. */
  function Audited(gates: seq<Gate>, actions: seq<Action>): seq<AuditRow>
    requires |gates| == |actions|
  {
    if actions == [] then []
    else
      var n := |actions| - 1;
      Audited(gates[..n], actions[..n]) + AuditPart(gates[n], actions[n])
  }

  /** The result belongs to the action and shows what the gate did with it. */
  predicate Answers(r: Result, a: Action, gate: Gate)
  {
    && r.actionId == a.id
    && (r.denied <==> gate.Blocked?)
    && (r.denied ==> r.failed)
  }

  predicate AllAnswer(results: seq<Result>, actions: seq<Action>, gates: seq<Gate>)
    requires |results| == |gates| <= |actions|
  {
    forall i | 0 <= i < |results| :: Answers(results[i], actions[i], gates[i])
  }

  /** The logs of the runner and the auditor. */
  datatype Logs = Logs(runs: seq<Action>, audit: seq<AuditRow>)

  /** What taking the leading actions through `gates` adds to the logs. */
  predicate Logged(before: Logs, after: Logs, gates: seq<Gate>, actions: seq<Action>)
    requires |gates| <= |actions|
  {
    && after.runs == before.runs + Dispatched(gates, actions[..|gates|])
    && after.audit == before.audit + Audited(gates, actions[..|gates|])
  }

  lemma LogsGrow(before: Logs, after: Logs, gates: seq<Gate>, actions: seq<Action>, g: Gate)
    requires |gates| < |actions| && Logged(before, after, gates, actions)
    ensures Logged(before, Logs(after.runs + RunPart(g, actions[|gates|]), after.audit + AuditPart(g, actions[|gates|])),
                   gates + [g], actions)
  {
    var i := |gates|;
    assert actions[..i + 1][..i] == actions[..i] && (gates + [g])[..i] == gates;
  }

  /** The dispatch so far: logs, results and outcome flag of the actions behind `gates`. */
  ghost predicate Progressed(before: Logs, after: Logs, gates: seq<Gate>, actions: seq<Action>,
                             results: seq<Result>, failed: bool)
  {
    && |results| == |gates| <= |actions|
    && Logged(before, after, gates, actions) && AllAnswer(results, actions, gates)
    && (forall i | 0 <= i < |gates| :: !gates[i].Missing?)
    && (failed <==> AnyFailed(results))
  }

  lemma ProgressStep(before: Logs, after: Logs, gates: seq<Gate>, actions: seq<Action>, results: seq<Result>,
                     failed: bool, g: Gate, r: Result)
    requires Progressed(before, after, gates, actions, results, failed) && |gates| < |actions|
    requires !g.Missing? && Answers(r, actions[|gates|], g)
    ensures Progressed(before, Logs(after.runs + RunPart(g, actions[|gates|]), after.audit + AuditPart(g, actions[|gates|])),
                       gates + [g], actions, results + [r], failed || r.failed)
  {
    LogsGrow(before, after, gates, actions, g);
    AnyFailedAppend(results, r);
  }

  predicate AnyFailed(results: seq<Result>)
  {
    exists i | 0 <= i < |results| :: results[i].failed
  }

  lemma AnyFailedAppend(results: seq<Result>, r: Result)
    ensures AnyFailed(results + [r]) <==> AnyFailed(results) || r.failed
  {
    var longer := results + [r];
    assert longer[|results|] == r;
    assert forall i | 0 <= i < |results| :: longer[i] == results[i];
  }

  class TaskExecutor {
    /** The policy in force, if the executor has one; others may change it at any time. */
    var policy: Option<TenantPolicy>
    /** Every action handed to the runner, and every audited decision. */
    var runs: seq<Action>
    var audit: seq<AuditRow>

    constructor (policy: Option<TenantPolicy>)
      ensures this.policy == policy && runs == [] && audit == []
    {
      this.policy := policy;
      runs, audit := [], [];
    }

    /** Rules and grants may change between two actions. */
    method PolicyMoves()
      modifies this`policy
      ensures policy.None? <==> old(policy).None?
    {
      if policy.Some? {
        var p: TenantPolicy := *;
        policy := Some(p);
      }
    }

    method RunAction(a: Action) returns (failed: bool)
      modifies this`runs
      ensures runs == old(runs) + [a]
    {
      runs := runs + [a];
      failed := *;
    }

    /** One action through the gate; `None` when the policy is missing. */
    method DispatchOne(a: Action, gate: Gate) returns (r: Option<Result>)
      modifies this`runs, this`audit
      ensures r.None? <==> gate.Missing?
      ensures runs == old(runs) + RunPart(gate, a) && audit == old(audit) + AuditPart(gate, a)
      ensures r.Some? ==>
                Answers(r.value, a, gate)
    {
      if gate.Missing? {
        return None;
      }
      if gate.Cleared? || gate.Blocked? {
        audit := audit + [AuditRow(a.id, gate.Cleared?)];
      }
      if gate.Blocked? {
        return Some(Result(a.id, true, true));
      }
      var failed := RunAction(a);
      r := Some(Result(a.id, failed, false));
    }

    /** One turn: the action is judged under the policy in force now. */
    method Turn(a: Action, preApproved: set<string>) returns (r: Option<Result>, ghost gate: Gate)
      modifies this
      ensures (policy.None? <==> old(policy).None?) && gate == GateOf(policy, preApproved, a)
      ensures runs == old(runs) + RunPart(gate, a) && audit == old(audit) + AuditPart(gate, a)
      ensures r.None? <==> gate.Missing?
      ensures r.Some? ==> Answers(r.value, a, gate)
    {
      PolicyMoves();
      var g := GateOf(policy, preApproved, a);
      gate := g;
      r := DispatchOne(a, g);
    }

    /** Takes the actions through the gate one by one, each judged under the policy in force at
        its turn (`policies`). Results match actions one to one and in order; the runner sees
        exactly the pre-approved and allowed actions, each once; every evaluation is audited;
        the outcome fails exactly when some result does; and only a missing policy stops it. */
    method Dispatch(actions: seq<Action>, preApproved: set<string>)
      returns (out: Outcome, ghost policies: seq<Option<TenantPolicy>>)
      modifies this
      ensures |policies| <= |actions| && forall p | p in policies :: p.None? <==> old(policy).None?
      ensures var gates := GatesOf(policies, preApproved, actions);
              && Logged(old(Logs(runs, audit)), Logs(runs, audit), gates, actions)
              && (forall i | 0 <= i < |gates| - 1 :: !gates[i].Missing?)
              && (out.PolicyMissing? <==> gates != [] && gates[|gates| - 1].Missing?)
              && (out.Done? ==>
                    && |out.results| == |actions| == |gates| && AllAnswer(out.results, actions, gates)
                    && (out.failed <==> AnyFailed(out.results)))
    {
      var results: seq<Result>, failed := [], false;
      policies := [];
      ghost var before := Logs(runs, audit);
      for i := 0 to |actions|
        invariant |policies| == i && forall p | p in policies :: p.None? <==> old(policy).None?
        invariant policy.None? <==> old(policy).None?
        invariant Progressed(before, Logs(runs, audit), GatesOf(policies, preApproved, actions), actions, results, failed)
      {
        ghost var gates, logs := GatesOf(policies, preApproved, actions), Logs(runs, audit);
        ghost var gate;
        var r;
        r, gate := Turn(actions[i], preApproved);
        GatesAppend(policies, policy, preApproved, actions);
        policies := policies + [policy];
        if r.None? {
          LogsGrow(before, logs, gates, actions, gate);
          return PolicyMissing, policies;
        }
        ProgressStep(before, logs, gates, actions, results, failed, gate, r.value);
        results := results + [r.value];
        failed := failed || r.value.failed;
      }
      out := Done(failed, results);
    }

    /** Fails every action without consulting the policy or the runner. The outcome is failed
        even when there is no action at all. */
    method DenyAll(actions: seq<Action>) returns (out: Outcome)
      ensures out.Done? && out.failed && |out.results| == |actions|
      ensures forall i | 0 <= i < |actions| :: out.results[i] == Result(actions[i].id, true, true)
    {
      var results: seq<Result> := [];
      for i := 0 to |actions|
        invariant |results| == i
        invariant forall k | 0 <= k < i :: results[k] == Result(actions[k].id, true, true)
      {
        results := results + [Result(actions[i].id, true, true)];
      }
      out := Done(true, results);
    }
  }

  /** The gate is open exactly for pre-approved actions, without a policy, or when the tiered
      rule allows; a denied or uncovered action never passes. */
  lemma GateIsTiered(policy: Option<TenantPolicy>, pre: set<string>, a: Action)
    ensures RunPart(GateOf(policy, pre, a), a) == [a] <==>
              policy.None? || a.id in pre ||
              var p := policy.value;
              var rules := ResolveRules(p.stored, p.tenant, p.production);
              rules.Some? &&
              TieredDecision(GrantsOf(p.permissions, p.tenant), rules.value, a, p.glob).Allowed?
  {
    if policy.Some? {
      var p := policy.value;
      var rules := ResolveRules(p.stored, p.tenant, p.production);
      if rules.Some? {
        SelectionIsTiered(GrantsOf(p.permissions, p.tenant), rules.value, a, p.glob);
      }
    }
  }

  // ------------------------------------------------------------ the gate, from the rows

  /** The tenant has a permission that covers the action. */
  ghost predicate Granted(p: TenantPolicy, a: Action)
  {
    exists category, pattern ::
      HoldsGrant(p.permissions, p.tenant, category, pattern) && Covers(category, pattern, a, p.glob)
  }

  /** The tenant has a stored rule with that effect, patterned or not, that covers the action. */
  ghost predicate Ruled(p: TenantPolicy, a: Action, patterned: bool, effect: Effect)
  {
    exists r: Rule ::
      StoredRule(p.tenant, r) in p.stored && r.effect == effect && r.pattern.Some? == patterned &&
      Covers(r.category, r.pattern, a, p.glob)
  }

  /** The tenant has any stored rule at all. */
  ghost predicate Governed(p: TenantPolicy) { exists r: Rule :: StoredRule(p.tenant, r) in p.stored }

  /** The whole gate in terms of the tenant's own rows. */
  ghost predicate Opens(p: TenantPolicy, a: Action)
  {
    || Granted(p, a)
    || !Governed(p)
    || (Ruled(p, a, true, Allow) && !Ruled(p, a, true, Deny))
    || (!Ruled(p, a, true, Allow) && !Ruled(p, a, true, Deny) &&
        Ruled(p, a, false, Allow) && !Ruled(p, a, false, Deny))
  }

  lemma GrantedIsTiered(p: TenantPolicy, a: Action)
    ensures Granted(p, a) <==> exists r | r in GrantsOf(p.permissions, p.tenant) :: Matches(r, a, p.glob)
  {
    if category, pattern :| HoldsGrant(p.permissions, p.tenant, category, pattern) && Covers(category, pattern, a, p.glob) {
      var r := Rule(category, Allow, pattern);
      GrantsAreOwn(p.permissions, p.tenant, r);
      MatchesWhatItCovers(r, a, p.glob);
    }
    if r :| r in GrantsOf(p.permissions, p.tenant) && Matches(r, a, p.glob) {
      GrantsAreOwn(p.permissions, p.tenant, r);
      MatchesWhatItCovers(r, a, p.glob);
    }
  }

  lemma RuledIsTiered(p: TenantPolicy, a: Action, patterned: bool)
    ensures Ruled(p, a, patterned, Deny) <==> SomeDeny(RulesOf(p.stored, p.tenant), patterned, a, p.glob)
    ensures Ruled(p, a, patterned, Allow) || Ruled(p, a, patterned, Deny) <==>
              SomeMatch(RulesOf(p.stored, p.tenant), patterned, a, p.glob)
  {
    forall r: Rule
      ensures r in RulesOf(p.stored, p.tenant) <==> StoredRule(p.tenant, r) in p.stored
      ensures Matches(r, a, p.glob) <==> Covers(r.category, r.pattern, a, p.glob)
    {
      RulesAreOwn(p.stored, p.tenant, r);
      MatchesWhatItCovers(r, a, p.glob);
    }
  }

  lemma GovernedHasRules(p: TenantPolicy)
    ensures Governed(p) <==> RulesOf(p.stored, p.tenant) != []
  {
    var rules := RulesOf(p.stored, p.tenant);
    if r: Rule :| StoredRule(p.tenant, r) in p.stored {
      RulesAreOwn(p.stored, p.tenant, r);
    }
    if rules != [] {
      RulesAreOwn(p.stored, p.tenant, rules[0]);
    }
  }

  lemma DefaultOpens(p: TenantPolicy, a: Action)
    ensures TieredDecision(GrantsOf(p.permissions, p.tenant), DEFAULT_RULES, a, p.glob) == Allowed
  {
    DefaultAllows(a, p.glob);
  }

  /** The gate, from the rows alone. It fails exactly in production for a tenant without stored
      rules, and otherwise opens exactly if the tenant's own permissions, rules or the default
      say so. */
  lemma GateExactly(p: TenantPolicy, pre: set<string>, a: Action)
    requires a.id !in pre
    ensures GateOf(Some(p), pre, a) ==
            if !Governed(p) && p.production then Missing else if Opens(p, a) then Cleared else Blocked
  {
    GovernedHasRules(p);
    GateIsTiered(Some(p), pre, a);
    GrantedIsTiered(p, a);
    RuledIsTiered(p, a, true);
    RuledIsTiered(p, a, false);
    if !Governed(p) && !p.production {
      DefaultOpens(p, a);
    }
  }

  /** Two policies agree on a tenant's own rules and permissions. */
  ghost predicate AgreeOnTenant(p: TenantPolicy, q: TenantPolicy)
  {
    && p.tenant == q.tenant && p.production == q.production && p.glob == q.glob
    && (forall r: Rule :: StoredRule(p.tenant, r) in p.stored <==> StoredRule(p.tenant, r) in q.stored)
    && forall category, pattern ::
         HoldsGrant(p.permissions, p.tenant, category, pattern) <==> HoldsGrant(q.permissions, p.tenant, category, pattern)
  }

  /** Tenants are isolated: what other tenants' rows say changes no gate. */
  lemma TenantsAreIsolated(p: TenantPolicy, q: TenantPolicy, pre: set<string>, a: Action)
    requires AgreeOnTenant(p, q)
    ensures GateOf(Some(p), pre, a) == GateOf(Some(q), pre, a)
  {
    if a.id !in pre {
      GateExactly(p, pre, a);
      GateExactly(q, pre, a);
      SameAnswers(p, q, a);
    }
  }

  lemma SameAnswers(p: TenantPolicy, q: TenantPolicy, a: Action)
    requires AgreeOnTenant(p, q)
    ensures Granted(p, a) <==> Granted(q, a)
    ensures Governed(p) <==> Governed(q)
    ensures forall patterned, effect :: Ruled(p, a, patterned, effect) <==> Ruled(q, a, patterned, effect)
  {
  }

  /** Granting to, or revoking from, another tenant opens and closes no gate of this one. */
  lemma GrantsElsewhereChangeNothing(p: TenantPolicy, grant: Permission, other: string, id: nat, pre: set<string>, a: Action)
    requires grant.tenant != p.tenant && other != p.tenant
    ensures GateOf(Some(p.(permissions := p.permissions + [grant])), pre, a) == GateOf(Some(p), pre, a)
    ensures GateOf(Some(p.(permissions := Without(p.permissions, other, id))), pre, a) == GateOf(Some(p), pre, a)
  {
    var more, less := p.(permissions := p.permissions + [grant]), p.(permissions := Without(p.permissions, other, id));
    forall category, pattern
      ensures HoldsGrant(more.permissions, p.tenant, category, pattern) <==>
                HoldsGrant(p.permissions, p.tenant, category, pattern)
      ensures HoldsGrant(less.permissions, p.tenant, category, pattern) <==>
                HoldsGrant(p.permissions, p.tenant, category, pattern)
    {
      GrantElsewhere(p.permissions, grant, p.tenant, category, pattern);
      RevokeElsewhere(p.permissions, other, id, p.tenant, category, pattern);
    }
    TenantsAreIsolated(more, p, pre, a);
    TenantsAreIsolated(less, p, pre, a);
  }

  /** The positions that hold `a` behind an open gate. */
  function OpenPositions(gates: seq<Gate>, actions: seq<Action>, a: Action): set<nat>
    requires |gates| == |actions|
  {
    set i: nat | i < |actions| && actions[i] == a && (gates[i].Ungated? || gates[i].Cleared?)
  }

  predicate Audits(gate: Gate, a: Action, r: AuditRow)
  {
    (gate.Cleared? || gate.Blocked?) && r == AuditRow(a.id, gate.Cleared?)
  }

  /** The positions whose evaluation leaves the audit row `r`. */
  function AuditedPositions(gates: seq<Gate>, actions: seq<Action>, r: AuditRow): set<nat>
    requires |gates| == |actions|
  {
    set i: nat | i < |actions| && Audits(gates[i], actions[i], r)
  }

  lemma OpenPositionsGrow(gates: seq<Gate>, actions: seq<Action>, a: Action, n: nat)
    requires |gates| == |actions| == n + 1
    ensures |OpenPositions(gates, actions, a)| ==
            |OpenPositions(gates[..n], actions[..n], a)| + multiset(RunPart(gates[n], actions[n]))[a]
  {
    var before := OpenPositions(gates[..n], actions[..n], a);
    assert OpenPositions(gates, actions, a) ==
           if actions[n] == a && (gates[n].Ungated? || gates[n].Cleared?) then before + {n} else before;
  }

  lemma AuditedPositionsGrow(gates: seq<Gate>, actions: seq<Action>, r: AuditRow, n: nat)
    requires |gates| == |actions| == n + 1
    ensures |AuditedPositions(gates, actions, r)| ==
            |AuditedPositions(gates[..n], actions[..n], r)| + multiset(AuditPart(gates[n], actions[n]))[r]
  {
    var before := AuditedPositions(gates[..n], actions[..n], r);
    assert AuditedPositions(gates, actions, r) ==
           if Audits(gates[n], actions[n], r) then before + {n} else before;
  }

  /** The runner sees an action exactly as often as it occurs behind an open gate. */
  lemma {:induction false} DispatchedExactly(gates: seq<Gate>, actions: seq<Action>, a: Action)
    requires |gates| == |actions|
    ensures multiset(Dispatched(gates, actions))[a] == |OpenPositions(gates, actions, a)|
    decreases |actions|
  {
    if actions == [] {
      assert OpenPositions(gates, actions, a) == {};
    } else {
      var n := |actions| - 1;
      DispatchedExactly(gates[..n], actions[..n], a);
      OpenPositionsGrow(gates, actions, a, n);
    }
  }

  /** Every evaluated action leaves one audit row with its verdict, and there are no others. */
  lemma {:induction false} AuditedExactly(gates: seq<Gate>, actions: seq<Action>, r: AuditRow)
    requires |gates| == |actions|
    ensures multiset(Audited(gates, actions))[r] == |AuditedPositions(gates, actions, r)|
    decreases |actions|
  {
    if actions == [] {
      assert AuditedPositions(gates, actions, r) == {};
    } else {
      var n := |actions| - 1;
      AuditedExactly(gates[..n], actions[..n], r);
      AuditedPositionsGrow(gates, actions, r, n);
    }
  }
}
