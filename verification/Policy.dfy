/** The execution policy: which rules govern a tenant and how they decide an action. */
module Policy {
  import opened Wrappers

  datatype Category = Shell | FsWrite | Patch | Network | SecretsRead | Validation

  datatype ActionType = CreateFile | EditFile | ApplyPatch | RunCommand | RunValidation

  datatype Action = Action(id: string, kind: ActionType, command: seq<string>, path: Option<string>)

  datatype Effect = Allow | Deny

  datatype Rule = Rule(category: Category, effect: Effect, pattern: Option<string>)

  /** The outcome of evaluating an action: `Unmatched` denies too, but is told apart. */
  datatype Verdict = Allowed | Refused | Unmatched

  function CategoryOf(t: ActionType): Category
  {
    match t
    case CreateFile | EditFile => FsWrite
    case ApplyPatch => Patch
    case RunCommand => Shell
    case RunValidation => Validation
  }

  /** What a rule's pattern is matched against. */
  function MatchTarget(a: Action): string
  {
    if a.command != [] then a.command[0] else if a.path.Some? then a.path.value else ""
  }

  type Glob = (string, string) -> bool

  predicate Matches(r: Rule, a: Action, glob: Glob)
  {
    r.category == CategoryOf(a.kind) && (r.pattern.None? || glob(MatchTarget(a), r.pattern.value))
  }

  // ------------------------------------------------------------ selection

  datatype Scored = Scored(score: int, rule: Rule)

  /** The matching rules with their specificity: `base` plus one for a pattern. */
  function ScoredRules(rules: seq<Rule>, base: int, a: Action, glob: Glob): seq<Scored>
  {
    if rules == [] then []
    else
      var r := rules[0];
      (if Matches(r, a, glob) then [Scored(base + (if r.pattern.Some? then 1 else 0), r)] else []) +
      ScoredRules(rules[1..], base, a, glob)
  }

  function TopScore(scored: seq<Scored>): int
    requires scored != []
  {
    if |scored| == 1 then scored[0].score
    else
      var rest := TopScore(scored[1..]);
      if scored[0].score > rest then scored[0].score else rest
  }

  function AtScore(scored: seq<Scored>, score: int): seq<Rule>
  {
    if scored == [] then []
    else (if scored[0].score == score then [scored[0].rule] else []) + AtScore(scored[1..], score)
  }

  function Denies(rules: seq<Rule>): seq<Rule>
  {
    if rules == [] then []
    else (if rules[0].effect.Deny? then [rules[0]] else []) + Denies(rules[1..])
  }

  /** Score every matching rule, keep the top score, let a deny win among those. */
  function Decide(dynamic: seq<Rule>, rules: seq<Rule>, a: Action, glob: Glob): Verdict
  {
    var scored := ScoredRules(dynamic, 2, a, glob) + ScoredRules(rules, 0, a, glob);
    if scored == [] then Unmatched
    else
      var top := AtScore(scored, TopScore(scored));
      var denies := Denies(top);
      AtScoreIsNonEmpty(scored);
      var matched := if denies != [] then denies[0] else top[0];
      if matched.effect.Allow? then Allowed else Refused
  }

  // ------------------------------------------------------------ the tiered rule

  predicate SomeMatch(rules: seq<Rule>, patterned: bool, a: Action, glob: Glob)
  {
    exists r | r in rules :: Matches(r, a, glob) && r.pattern.Some? == patterned
  }

  predicate SomeDeny(rules: seq<Rule>, patterned: bool, a: Action, glob: Glob)
  {
    exists r | r in rules :: Matches(r, a, glob) && r.pattern.Some? == patterned && r.effect.Deny?
  }

  function Tier(rules: seq<Rule>, patterned: bool, a: Action, glob: Glob): Verdict
  {
    if SomeDeny(rules, patterned, a, glob) then Refused else Allowed
  }

  /** What the policy means: any matching human grant allows; else the patterned rules decide,
      a deny winning; else the category-wide ones likewise; else nothing covers the action. */
  function TieredDecision(dynamic: seq<Rule>, rules: seq<Rule>, a: Action, glob: Glob): Verdict
  {
    if exists r | r in dynamic :: Matches(r, a, glob) then Allowed
    else if SomeMatch(rules, true, a, glob) then Tier(rules, true, a, glob)
    else if SomeMatch(rules, false, a, glob) then Tier(rules, false, a, glob)
    else Unmatched
  }

  // ------------------------------------------------------------ equivalence

  lemma {:induction false} TopScoreIsMax(scored: seq<Scored>)
    requires scored != []
    ensures forall s | s in scored :: s.score <= TopScore(scored)
    ensures exists s | s in scored :: s.score == TopScore(scored)
  {
    if |scored| > 1 {
      TopScoreIsMax(scored[1..]);
      assert scored == [scored[0]] + scored[1..];
    }
    assert scored[0] in scored;
  }

  lemma {:induction false} AtScoreMembers(scored: seq<Scored>, score: int)
    ensures forall r :: r in AtScore(scored, score) <==> Scored(score, r) in scored
  {
    if scored != [] {
      AtScoreMembers(scored[1..], score);
      assert scored == [scored[0]] + scored[1..];
    }
  }

  lemma AtScoreIsNonEmpty(scored: seq<Scored>)
    requires scored != []
    ensures AtScore(scored, TopScore(scored)) != []
  {
    TopScoreIsMax(scored);
    AtScoreMembers(scored, TopScore(scored));
    var s :| s in scored && s.score == TopScore(scored);
    assert s == Scored(TopScore(scored), s.rule);
    assert s.rule in AtScore(scored, TopScore(scored));
  }

  lemma {:induction false} DeniesMembers(rules: seq<Rule>)
    ensures forall r :: r in Denies(rules) <==> r in rules && r.effect.Deny?
  {
    if rules != [] {
      DeniesMembers(rules[1..]);
      assert rules == [rules[0]] + rules[1..];
    }
  }

  function ScoreOf(r: Rule, base: int): Scored { Scored(base + (if r.pattern.Some? then 1 else 0), r) }

  lemma {:induction false} ScoredMembers(rules: seq<Rule>, base: int, a: Action, glob: Glob)
    ensures forall s :: s in ScoredRules(rules, base, a, glob) <==>
              s.rule in rules && Matches(s.rule, a, glob) && s == ScoreOf(s.rule, base)
  {
    if rules != [] {
      ScoredMembers(rules[1..], base, a, glob);
      assert rules == [rules[0]] + rules[1..];
    }
  }

  /** Among the top-scored rules, the choice is a deny exactly when one of them denies. */
  lemma ChoiceAmongTop(scored: seq<Scored>)
    requires scored != []
    ensures
      var t := TopScore(scored);
      var top := AtScore(scored, t);
      var denies := Denies(top);
      && top != []
      && (denies != [] <==> exists s | s in scored :: s.score == t && s.rule.effect.Deny?)
      && (denies != [] ==> denies[0].effect.Deny?)
      && (denies == [] ==> top[0].effect.Allow?)
  {
    var t := TopScore(scored);
    var top := AtScore(scored, t);
    AtScoreIsNonEmpty(scored);
    AtScoreMembers(scored, t);
    DeniesMembers(top);
    if Denies(top) != [] {
      var r := Denies(top)[0];
      assert r in Denies(top);
      assert Scored(t, r) in scored;
    } else {
      assert top[0] in top;
      assert !top[0].effect.Deny?;
      assert forall s | s in scored && s.score == t :: s == Scored(t, s.rule) && s.rule in top;
    }
  }

  lemma AllScored(dynamic: seq<Rule>, rules: seq<Rule>, a: Action, glob: Glob)
    ensures
      var scored := ScoredRules(dynamic, 2, a, glob) + ScoredRules(rules, 0, a, glob);
      && (forall r | r in dynamic && Matches(r, a, glob) :: ScoreOf(r, 2) in scored)
      && (forall r | r in rules && Matches(r, a, glob) :: ScoreOf(r, 0) in scored)
      && (forall s | s in scored ::
            Matches(s.rule, a, glob) &&
            ((s.rule in dynamic && s == ScoreOf(s.rule, 2)) || (s.rule in rules && s == ScoreOf(s.rule, 0))))
  {
    ScoredMembers(dynamic, 2, a, glob);
    ScoredMembers(rules, 0, a, glob);
  }

  /** Human grants carry no effect of their own: they are always read as allow rules. */
  predicate AllGrants(dynamic: seq<Rule>) { forall r | r in dynamic :: r.effect.Allow? }

  /** When the top score is that of a static tier, some top rule denies exactly when some
      rule of the tier does. */
  lemma StaticTier(scored: seq<Scored>, rules: seq<Rule>, patterned: bool, a: Action, glob: Glob)
    requires scored != [] && TopScore(scored) == if patterned then 1 else 0
    requires forall s | s in scored :: s.rule in rules && Matches(s.rule, a, glob) && s == ScoreOf(s.rule, 0)
    requires forall r | r in rules && Matches(r, a, glob) :: ScoreOf(r, 0) in scored
    ensures SomeMatch(rules, patterned, a, glob)
    ensures SomeDeny(rules, patterned, a, glob) <==>
              exists s | s in scored :: s.score == TopScore(scored) && s.rule.effect.Deny?
  {
    TopScoreIsMax(scored);
    var s :| s in scored && s.score == TopScore(scored);
    assert Matches(s.rule, a, glob) && s.rule.pattern.Some? == patterned;
    if SomeDeny(rules, patterned, a, glob) {
      var r :| r in rules && Matches(r, a, glob) && r.pattern.Some? == patterned && r.effect.Deny?;
      assert ScoreOf(r, 0) in scored;
    }
  }

  /** A matching grant outscores every stored rule. */
  lemma GrantDecides(dynamic: seq<Rule>, rules: seq<Rule>, a: Action, glob: Glob, g: Rule)
    requires AllGrants(dynamic) && g in dynamic && Matches(g, a, glob)
    ensures Decide(dynamic, rules, a, glob) == Allowed
  {
    var scored := ScoredRules(dynamic, 2, a, glob) + ScoredRules(rules, 0, a, glob);
    AllScored(dynamic, rules, a, glob);
    assert ScoreOf(g, 2) in scored;
    ChoiceAmongTop(scored);
    TopScoreIsMax(scored);
    assert forall x | x in scored && x.score == TopScore(scored) :: x.rule in dynamic;
  }

  /** Without one, the highest tier of stored rules that matches decides. */
  lemma StoredRulesDecide(dynamic: seq<Rule>, rules: seq<Rule>, a: Action, glob: Glob)
    requires forall g | g in dynamic :: !Matches(g, a, glob)
    ensures Decide(dynamic, rules, a, glob) ==
            if SomeMatch(rules, true, a, glob) then Tier(rules, true, a, glob)
            else if SomeMatch(rules, false, a, glob) then Tier(rules, false, a, glob)
            else Unmatched
  {
    var scored := ScoredRules(dynamic, 2, a, glob) + ScoredRules(rules, 0, a, glob);
    AllScored(dynamic, rules, a, glob);
    if scored != [] {
      ChoiceAmongTop(scored);
      TopScoreIsMax(scored);
      if r :| r in rules && Matches(r, a, glob) && r.pattern.Some? {
        assert TopScore(scored) >= ScoreOf(r, 0).score == 1;
        StaticTier(scored, rules, true, a, glob);
      } else {
        StaticTier(scored, rules, false, a, glob);
      }
    }
  }

  /** The score-and-max selection is the tiered rule, for every rule set and action. */
  lemma SelectionIsTiered(dynamic: seq<Rule>, rules: seq<Rule>, a: Action, glob: Glob)
    requires AllGrants(dynamic)
    ensures Decide(dynamic, rules, a, glob) == TieredDecision(dynamic, rules, a, glob)
  {
    if g :| g in dynamic && Matches(g, a, glob) {
      GrantDecides(dynamic, rules, a, glob, g);
    } else {
      StoredRulesDecide(dynamic, rules, a, glob);
    }
  }

  ghost predicate SameMembers(a: seq<Rule>, b: seq<Rule>) { forall r :: r in a <==> r in b }

  lemma ReorderedMembers(a: seq<Rule>, b: seq<Rule>)
    requires multiset(a) == multiset(b)
    ensures SameMembers(a, b)
  {
    forall r ensures r in a <==> r in b {
      assert r in a <==> r in multiset(a);
      assert r in b <==> r in multiset(b);
    }
  }

  lemma TieredByMembers(dynamic: seq<Rule>, rules: seq<Rule>, dynamic': seq<Rule>, rules': seq<Rule>,
                        a: Action, glob: Glob)
    requires SameMembers(dynamic, dynamic') && SameMembers(rules, rules')
    ensures TieredDecision(dynamic, rules, a, glob) == TieredDecision(dynamic', rules', a, glob)
  {
  }

  /** The order in which rules are stored or listed never matters. */
  lemma OrderIsIrrelevant(dynamic: seq<Rule>, rules: seq<Rule>, dynamic': seq<Rule>, rules': seq<Rule>,
                          a: Action, glob: Glob)
    requires AllGrants(dynamic) && multiset(dynamic) == multiset(dynamic') && multiset(rules) == multiset(rules')
    ensures Decide(dynamic, rules, a, glob) == Decide(dynamic', rules', a, glob)
  {
    ReorderedMembers(dynamic, dynamic');
    ReorderedMembers(rules, rules');
    SelectionIsTiered(dynamic, rules, a, glob);
    SelectionIsTiered(dynamic', rules', a, glob);
    TieredByMembers(dynamic, rules, dynamic', rules', a, glob);
  }

  // ------------------------------------------------------------ the store

  datatype StoredRule = StoredRule(tenant: string, rule: Rule)

  /** A dynamic permission row: it stores no effect. */
  datatype Permission = Permission(id: nat, tenant: string, category: Category, pattern: Option<string>)

  function RulesOf(rows: seq<StoredRule>, tenant: string): seq<Rule>
  {
    if rows == [] then []
    else (if rows[0].tenant == tenant then [rows[0].rule] else []) + RulesOf(rows[1..], tenant)
  }

  function GrantsOf(rows: seq<Permission>, tenant: string): (grants: seq<Rule>)
    ensures AllGrants(grants)
  {
    if rows == [] then []
    else (if rows[0].tenant == tenant then [Rule(rows[0].category, Allow, rows[0].pattern)] else []) +
         GrantsOf(rows[1..], tenant)
  }

  function Without(rows: seq<Permission>, tenant: string, id: nat): seq<Permission>
  {
    if rows == [] then []
    else (if rows[0].tenant == tenant && rows[0].id == id then [] else [rows[0]]) +
         Without(rows[1..], tenant, id)
  }

  const DEFAULT_RULES: seq<Rule> :=
    [Rule(Shell, Allow, None), Rule(FsWrite, Allow, None), Rule(Patch, Allow, None),
     Rule(Network, Allow, None), Rule(SecretsRead, Allow, None), Rule(Validation, Allow, None)]

  /** The effective rules; `None` is the missing-policy error production raises. */
  function ResolveRules(rows: seq<StoredRule>, tenant: string, production: bool): Option<seq<Rule>>
  {
    if RulesOf(rows, tenant) != [] then Some(RulesOf(rows, tenant))
    else if production then None
    else Some(DEFAULT_RULES)
  }

  /** Outside production a tenant without rules may do anything; the first stored rule
      replaces that default, so an action it does not cover becomes uncovered. */
  lemma FirstRuleReplacesDefault(rows: seq<StoredRule>, tenant: string, rule: Rule, a: Action, glob: Glob)
    requires RulesOf(rows, tenant) == []
    ensures ResolveRules(rows, tenant, false).Some? &&
            Decide([], ResolveRules(rows, tenant, false).value, a, glob) == Allowed
    ensures
      var after := ResolveRules(rows + [StoredRule(tenant, rule)], tenant, false);
      after == Some([rule]) &&
      Decide([], after.value, a, glob) ==
        if !Matches(rule, a, glob) then Unmatched else if rule.effect.Allow? then Allowed else Refused
  {
    RulesOfAppend(rows, StoredRule(tenant, rule), tenant);
    assert RulesOf(rows + [StoredRule(tenant, rule)], tenant) == [rule];
    SelectionIsTiered([], DEFAULT_RULES, a, glob);
    DefaultAllows(a, glob);
    SelectionIsTiered([], [rule], a, glob);
    assert rule in [rule];
  }

  lemma DefaultAllows(a: Action, glob: Glob)
    ensures TieredDecision([], DEFAULT_RULES, a, glob) == Allowed
  {
    var d := DEFAULT_RULES;
    assert d[0] in d && d[1] in d && d[2] in d && d[5] in d;
    var i := match CategoryOf(a.kind) case Shell => 0 case FsWrite => 1 case Patch => 2 case _ => 5;
    assert Matches(d[i], a, glob);
  }

  lemma {:induction false} RulesOfAppend(rows: seq<StoredRule>, row: StoredRule, tenant: string)
    ensures RulesOf(rows + [row], tenant) ==
            RulesOf(rows, tenant) + if row.tenant == tenant then [row.rule] else []
  {
    if rows != [] {
      RulesOfAppend(rows[1..], row, tenant);
      assert (rows + [row])[1..] == rows[1..] + [row];
    } else {
      assert [row][1..] == [];
    }
  }

  lemma {:induction false} WithoutFresh(rows: seq<Permission>, tenant: string, id: nat)
    requires forall i | 0 <= i < |rows| :: rows[i].id != id
    ensures Without(rows, tenant, id) == rows
  {
    if rows != [] {
      WithoutFresh(rows[1..], tenant, id);
    }
  }

  lemma {:induction false} WithoutConcat(a: seq<Permission>, b: seq<Permission>, tenant: string, id: nat)
    ensures Without(a + b, tenant, id) == Without(a, tenant, id) + Without(b, tenant, id)
    decreases |a|
  {
    if a == [] {
      assert a + b == b;
    } else {
      WithoutConcat(a[1..], b, tenant, id);
      assert (a + b)[1..] == a[1..] + b;
    }
  }

  /** A matching grant overrides every static rule of its tenant. */
  lemma GrantAllows(rows: seq<Permission>, p: Permission, rules: seq<Rule>, a: Action, glob: Glob)
    requires Matches(Rule(p.category, Allow, p.pattern), a, glob)
    ensures Decide(GrantsOf(rows + [p], p.tenant), rules, a, glob) == Allowed
  {
    GrantsOfAppend(rows, p);
    var grants := GrantsOf(rows + [p], p.tenant);
    assert grants[|grants| - 1] == Rule(p.category, Allow, p.pattern);
    SelectionIsTiered(grants, rules, a, glob);
  }

  /** Revoking a grant, whatever was granted before and since, leaves the table as if it had
      never been made, and with it every decision of every tenant. */
  lemma RevokeRestores(before: seq<Permission>, p: Permission, since: seq<Permission>)
    requires forall i | 0 <= i < |before| :: before[i].id != p.id
    requires forall i | 0 <= i < |since| :: since[i].id != p.id
    ensures Without(before + [p] + since, p.tenant, p.id) == before + since
  {
    WithoutConcat(before + [p], since, p.tenant, p.id);
    WithoutFresh(since, p.tenant, p.id);
    LatestRevoked(before, p);
  }

  lemma LatestRevoked(before: seq<Permission>, p: Permission)
    requires forall i | 0 <= i < |before| :: before[i].id != p.id
    ensures Without(before + [p], p.tenant, p.id) == before
  {
    WithoutConcat(before, [p], p.tenant, p.id);
    WithoutFresh(before, p.tenant, p.id);
    OnlyRevoked(p);
    assert before + [] == before;
  }

  lemma OnlyRevoked(p: Permission)
    ensures Without([p], p.tenant, p.id) == []
  {
    assert [p][1..] == [];
  }

  lemma {:induction false} GrantsOfAppend(rows: seq<Permission>, p: Permission)
    ensures GrantsOf(rows + [p], p.tenant) ==
            GrantsOf(rows, p.tenant) + [Rule(p.category, Allow, p.pattern)]
  {
    if rows != [] {
      GrantsOfAppend(rows[1..], p);
      assert (rows + [p])[1..] == rows[1..] + [p];
    } else {
      assert [p][1..] == [];
    }
  }

  // ------------------------------------------------------------ tenants

  /** What a rule of that category and pattern is about, written out per kind of action. */
  predicate Covers(category: Category, pattern: Option<string>, a: Action, glob: Glob)
  {
    && (category.Shell? ==> a.kind.RunCommand?)
    && (category.FsWrite? ==> a.kind.CreateFile? || a.kind.EditFile?)
    && (category.Patch? ==> a.kind.ApplyPatch?)
    && (category.Validation? ==> a.kind.RunValidation?)
    && !category.Network? && !category.SecretsRead?
    && (pattern.Some? ==>
          && (|a.command| > 0 ==> glob(a.command[0], pattern.value))
          && (|a.command| == 0 && a.path.Some? ==> glob(a.path.value, pattern.value))
          && (|a.command| == 0 && a.path.None? ==> glob("", pattern.value)))
  }

  lemma MatchesWhatItCovers(r: Rule, a: Action, glob: Glob)
    ensures Matches(r, a, glob) <==> Covers(r.category, r.pattern, a, glob)
  {
  }

  /** A tenant's rules are its own rows. */
  lemma {:induction false} RulesAreOwn(rows: seq<StoredRule>, tenant: string, r: Rule)
    ensures r in RulesOf(rows, tenant) <==> StoredRule(tenant, r) in rows
  {
    if rows != [] {
      RulesAreOwn(rows[1..], tenant, r);
      assert rows == [rows[0]] + rows[1..];
    }
  }

  /** The tenant has a permission row with that category and pattern. */
  predicate HoldsGrant(rows: seq<Permission>, tenant: string, category: Category, pattern: Option<string>)
  {
    exists i | 0 <= i < |rows| :: rows[i].tenant == tenant && rows[i].category == category && rows[i].pattern == pattern
  }

  lemma HoldsGrantStep(rows: seq<Permission>, tenant: string, category: Category, pattern: Option<string>)
    requires rows != []
    ensures HoldsGrant(rows, tenant, category, pattern) <==>
              (rows[0].tenant == tenant && rows[0].category == category && rows[0].pattern == pattern) ||
              HoldsGrant(rows[1..], tenant, category, pattern)
  {
    if HoldsGrant(rows[1..], tenant, category, pattern) {
      var i :| 0 <= i < |rows[1..]| && rows[1..][i].tenant == tenant && rows[1..][i].category == category &&
               rows[1..][i].pattern == pattern;
      assert rows[i + 1] == rows[1..][i];
    }
    if i :| 0 < i < |rows| && rows[i].tenant == tenant && rows[i].category == category && rows[i].pattern == pattern {
      assert rows[1..][i - 1] == rows[i];
    }
  }

  /** A tenant's grants are its own rows, and nothing but grants. */
  lemma {:induction false} GrantsAreOwn(rows: seq<Permission>, tenant: string, r: Rule)
    ensures r in GrantsOf(rows, tenant) <==> r.effect.Allow? && HoldsGrant(rows, tenant, r.category, r.pattern)
  {
    if rows != [] {
      GrantsAreOwn(rows[1..], tenant, r);
      HoldsGrantStep(rows, tenant, r.category, r.pattern);
    }
  }

  /** A revocation removes the row with that tenant and id, and no other. */
  lemma {:induction false} RevokesExactly(rows: seq<Permission>, tenant: string, id: nat, p: Permission)
    ensures p in Without(rows, tenant, id) <==> p in rows && !(p.tenant == tenant && p.id == id)
  {
    if rows != [] {
      RevokesExactly(rows[1..], tenant, id, p);
      assert rows == [rows[0]] + rows[1..];
    }
  }

  /** Granting to another tenant changes none of a tenant's grants. */
  lemma GrantElsewhere(rows: seq<Permission>, p: Permission, tenant: string, category: Category, pattern: Option<string>)
    requires p.tenant != tenant
    ensures HoldsGrant(rows + [p], tenant, category, pattern) <==> HoldsGrant(rows, tenant, category, pattern)
  {
    var more := rows + [p];
    assert more[|rows|] == p && forall i | 0 <= i < |rows| :: more[i] == rows[i];
  }

  /** Nor does revoking from another tenant. */
  lemma RevokeElsewhere(rows: seq<Permission>, other: string, id: nat, tenant: string, category: Category,
                        pattern: Option<string>)
    requires other != tenant
    ensures HoldsGrant(Without(rows, other, id), tenant, category, pattern) <==>
              HoldsGrant(rows, tenant, category, pattern)
  {
    var less := Without(rows, other, id);
    if i :| 0 <= i < |rows| && rows[i].tenant == tenant && rows[i].category == category && rows[i].pattern == pattern {
      RevokesExactly(rows, other, id, rows[i]);
      var j :| 0 <= j < |less| && less[j] == rows[i];
    }
    if j :| 0 <= j < |less| && less[j].tenant == tenant && less[j].category == category && less[j].pattern == pattern {
      RevokesExactly(rows, other, id, less[j]);
      var i :| 0 <= i < |rows| && rows[i] == less[j];
    }
  }
}
