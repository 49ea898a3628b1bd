/** Run budgets, their propagation to child runs, and retry backoff. */
module FlowBudgets {
  import opened Wrappers
  import opened Documents
  import opened FlowModel

  datatype Budgets = Budgets(maxCost: real, maxWallClock: int, maxTokens: int)

  const DEFAULT_BUDGETS := Budgets(10.0, 3600, 2_000_000)

  function MinReal(a: real, b: real): real { if b < a then b else a }

  function MinInt(a: int, b: int): int { if b < a then b else a }

  /** `a` is at least as strict as `b` in every dimension. */
  predicate Within(a: Budgets, b: Budgets)
  {
    a.maxCost <= b.maxCost && a.maxWallClock <= b.maxWallClock && a.maxTokens <= b.maxTokens
  }

  function MergeBudgets(budgets: Budgets, cap: Budgets): Budgets
  {
    Budgets(MinReal(budgets.maxCost, cap.maxCost),
            MinInt(budgets.maxWallClock, cap.maxWallClock),
            MinInt(budgets.maxTokens, cap.maxTokens))
  }

  /** Python's `int()`: truncation toward zero. */
  function Truncate(x: real): int
  {
    if x >= 0.0 then x.Floor else -((-x).Floor)
  }

  /** The document stored under `state["budget_cap"]`. */
  function CapDocument(cap: Budgets): Fields
  {
    map["max_cost_usd" := Num(cap.maxCost),
        "max_wall_clock_sec" := Num(cap.maxWallClock as real),
        "max_tokens" := Num(cap.maxTokens as real)]
  }

  function NumberAt(document: Fields, key: string, default: real): real
  {
    if key in document && document[key].Num? then document[key].n else default
  }

  /** The cap a run's state carries, if any; missing dimensions take the defaults. */
  function CapFromState(state: Fields): Option<Budgets>
  {
    if "budget_cap" in state && state["budget_cap"].Dict? then
      var d := state["budget_cap"].fields;
      Some(Budgets(NumberAt(d, "max_cost_usd", DEFAULT_BUDGETS.maxCost),
                   Truncate(NumberAt(d, "max_wall_clock_sec", DEFAULT_BUDGETS.maxWallClock as real)),
                   Truncate(NumberAt(d, "max_tokens", DEFAULT_BUDGETS.maxTokens as real))))
    else None
  }

  function EffectiveBudgets(budgets: Budgets, state: Fields, cap: Option<Budgets>): Budgets
  {
    var persisted := CapFromState(state);
    var capped := if persisted.Some? then MergeBudgets(budgets, persisted.value) else budgets;
    if cap.Some? then MergeBudgets(capped, cap.value) else capped
  }

  /** Whether a session is over budget, or has used its allotment of activations. */
  predicate Violates(b: Budgets, tokens: real, cost: real, elapsed: real, activations: int, maxSteps: int)
  {
    elapsed > b.maxWallClock as real || tokens > b.maxTokens as real || cost > b.maxCost ||
    activations >= maxSteps
  }

  /** Merging is the greatest lower bound: at least as strict as both, and anything as
      strict as both is as strict as it. */
  lemma MergeIsMeet(a: Budgets, b: Budgets, c: Budgets)
    ensures Within(c, MergeBudgets(a, b)) <==> Within(c, a) && Within(c, b)
    ensures MergeBudgets(a, b) == MergeBudgets(b, a)
  {
  }

  lemma CapRoundTrip(state: Fields, cap: Budgets)
    ensures CapFromState(state["budget_cap" := Dict(CapDocument(cap))]) == Some(cap)
  {
    var d := CapDocument(cap);
    assert (cap.maxTokens as real).Floor == cap.maxTokens;
    assert (-(cap.maxTokens as real)).Floor == -cap.maxTokens;
    assert (cap.maxWallClock as real).Floor == cap.maxWallClock;
    assert (-(cap.maxWallClock as real)).Floor == -cap.maxWallClock;
  }

  /** A dimension a stored cap lacks takes its default; no stored cap means none. */
  lemma MissingDimensions(state: Fields, document: Fields)
    ensures "budget_cap" !in state ==> CapFromState(state).None?
    ensures
      var cap := CapFromState(state["budget_cap" := Dict(document)]);
      && cap.Some?
      && ("max_cost_usd" !in document ==> cap.value.maxCost == 10.0)
      && ("max_wall_clock_sec" !in document ==> cap.value.maxWallClock == 3600)
      && ("max_tokens" !in document ==> cap.value.maxTokens == 2_000_000)
  {
    assert (3600 as real).Floor == 3600 && (2_000_000 as real).Floor == 2_000_000;
  }

  /** A run started with a cap enforces the same limits however often it is resumed: the
      persisted cap alone gives what the cap argument gave. */
  lemma ResumeEnforcesCap(manifest: Budgets, state: Fields, cap: Budgets)
    ensures var persisted := state["budget_cap" := Dict(CapDocument(cap))];
            EffectiveBudgets(manifest, persisted, None) == MergeBudgets(manifest, cap) ==
            EffectiveBudgets(manifest, persisted, Some(cap))
  {
    CapRoundTrip(state, cap);
  }

  /** The effective budget is the loosest that is within the manifest's, the persisted cap's and
      the given cap's. */
  lemma EffectiveIsMeet(manifest: Budgets, state: Fields, cap: Option<Budgets>, b: Budgets)
    ensures Within(b, EffectiveBudgets(manifest, state, cap)) <==>
              && Within(b, manifest)
              && (CapFromState(state).Some? ==> Within(b, CapFromState(state).value))
              && (cap.Some? ==> Within(b, cap.value))
  {
  }

  /** A session within a strict budget is within every looser one. */
  lemma LooserBudgetAdmits(strict: Budgets, loose: Budgets, tokens: real, cost: real,
                           elapsed: real, activations: int, maxSteps: int)
    requires Within(strict, loose)
    ensures Violates(loose, tokens, cost, elapsed, activations, maxSteps) ==>
              Violates(strict, tokens, cost, elapsed, activations, maxSteps)
  {
  }

  /** A parent execution session: its effective budgets, when it started, and what it had
      spent when it launched the child. */
  datatype Session = Session(effective: Budgets, started: real, now: real, tokens: real, cost: real)

  /** The cap a composite node gives a child: the parent's remaining budget at spawn time. */
  function ChildCap(p: Session): Budgets
  {
    var left := p.started + p.effective.maxWallClock as real - p.now;
    var tokens := Truncate(p.effective.maxTokens as real - p.tokens);
    var cost := p.effective.maxCost - p.cost;
    Budgets(if cost < 0.0 then 0.0 else cost,
            if Truncate(left) < 0 then 0 else Truncate(left),
            if tokens < 0 then 0 else tokens)
  }

  lemma TruncateAtMost(x: real, n: int)
    requires 0 <= n
    ensures Truncate(x) <= n <==> x < n as real + 1.0
  {
    if x >= 0.0 {
      assert x.Floor <= n <==> x < (n + 1) as real;
    }
  }

  /** A remaining-budget cap is within the parent's own budget exactly when that budget is
      non-negative and the parent has neither un-spent cost nor gained a whole token or second. */
  lemma ChildCapWithin(p: Session)
    ensures Within(ChildCap(p), p.effective) <==>
              && 0.0 <= p.effective.maxCost && 0.0 <= p.cost
              && 0 <= p.effective.maxTokens && -1.0 < p.tokens
              && 0 <= p.effective.maxWallClock && p.started - 1.0 < p.now
  {
    if 0 <= p.effective.maxTokens {
      TruncateAtMost(p.effective.maxTokens as real - p.tokens, p.effective.maxTokens);
    }
    if 0 <= p.effective.maxWallClock {
      TruncateAtMost(p.started + p.effective.maxWallClock as real - p.now, p.effective.maxWallClock);
    }
  }

  lemma WholeWithin(x: real, n: int)
    requires 0.0 <= x
    ensures n <= Truncate(x) <==> n as real <= x
  {
    assert n <= x.Floor <==> n as real <= x;
  }

  /** The cap is exactly the remaining budget: an allowance fits under it if and only if the
      parent can grant it without going over. */
  lemma ChildCapIsRemaining(p: Session, tokens: int, cost: real, seconds: int)
    requires p.tokens <= p.effective.maxTokens as real && p.cost <= p.effective.maxCost
    requires p.now <= p.started + p.effective.maxWallClock as real
    ensures tokens <= ChildCap(p).maxTokens <==> p.tokens + tokens as real <= p.effective.maxTokens as real
    ensures cost <= ChildCap(p).maxCost <==> p.cost + cost <= p.effective.maxCost
    ensures seconds <= ChildCap(p).maxWallClock <==>
              p.now + seconds as real <= p.started + p.effective.maxWallClock as real
  {
    WholeWithin(p.effective.maxTokens as real - p.tokens, tokens);
    WholeWithin(p.started + p.effective.maxWallClock as real - p.now, seconds);
  }

  /** `child` runs under its own manifest budgets merged with a cap within what `parent` has
      left: all of it for a subflow, a share of it for a map branch. */
  ghost predicate SpawnedBy(parent: Session, child: Session)
  {
    exists manifest: Budgets, cap: Budgets ::
      Within(cap, ChildCap(parent)) && child.effective == MergeBudgets(manifest, cap)
  }

  lemma CapSpawns(parent: Session, child: Session, manifest: Budgets, cap: Budgets)
    requires Within(cap, ChildCap(parent)) && child.effective == MergeBudgets(manifest, cap)
    ensures SpawnedBy(parent, child)
  {
  }

  /** What an execution session guarantees: metrics start at zero and handlers report
      non-negative usage, the clock is monotonic, and declared budgets are non-negative. */
  predicate Spending(p: Session)
  {
    && 0.0 <= p.cost && 0.0 <= p.tokens && p.started <= p.now
    && 0.0 <= p.effective.maxCost && 0 <= p.effective.maxTokens && 0 <= p.effective.maxWallClock
  }

  lemma SpawnedWithin(parent: Session, child: Session)
    requires Spending(parent) && SpawnedBy(parent, child)
    ensures Within(child.effective, parent.effective)
  {
    ChildCapWithin(parent);
    var manifest: Budgets, cap: Budgets :|
      Within(cap, ChildCap(parent)) && child.effective == MergeBudgets(manifest, cap);
    MergeIsMeet(manifest, cap, child.effective);
  }

  /** Down any chain of nested runs, a descendant's effective budget is at most every
      ancestor's, in every dimension. */
  lemma {:induction false} NestedBudgetsShrink(chain: seq<Session>, i: nat, j: nat)
    requires i <= j < |chain|
    requires forall k | 0 <= k < |chain| :: Spending(chain[k])
    requires forall k | 0 < k < |chain| :: SpawnedBy(chain[k - 1], chain[k])
    ensures Within(chain[j].effective, chain[i].effective)
    decreases j
  {
    if i < j {
      NestedBudgetsShrink(chain, i, j - 1);
      SpawnedWithin(chain[j - 1], chain[j]);
    }
  }

  // ------------------------------------------------------------------ backoff

  const MAX_BACKOFF_DELAY := 3600.0

  /** `delay * 2 ** n`. */
  function Doubled(delay: real, n: nat): real
  {
    if n == 0 then delay else 2.0 * Doubled(delay, n - 1)
  }

  function BackoffExponent(failedAttempt: int): nat
  {
    if failedAttempt <= 1 then 0 else if failedAttempt - 1 < 63 then failedAttempt - 1 else 63
  }

  function BackoffDelay(policy: RetryPolicy, failedAttempt: int): real
  {
    if policy.backoff.Exponential?
    then MinReal(Doubled(policy.initialDelay, BackoffExponent(failedAttempt)), MAX_BACKOFF_DELAY)
    else policy.initialDelay
  }

  lemma {:induction false} DoubledGrows(delay: real, a: nat, b: nat)
    requires 0.0 <= delay && a <= b
    ensures 0.0 <= Doubled(delay, a) <= Doubled(delay, b)
    decreases b
  {
    if a < b {
      DoubledGrows(delay, a, b - 1);
    } else if b > 0 {
      DoubledGrows(delay, b - 1, b - 1);
    }
  }

  /** Delays never shrink from one attempt to the next, and derived (exponential) delays
      stay under the hour. Manifests declare non-negative initial delays. */
  lemma BackoffGrows(policy: RetryPolicy, a: int, b: int)
    requires policy.initialDelay >= 0.0 && a <= b
    ensures 0.0 <= BackoffDelay(policy, a) <= BackoffDelay(policy, b)
    ensures policy.backoff.Exponential? ==> BackoffDelay(policy, b) <= MAX_BACKOFF_DELAY
  {
    DoubledGrows(policy.initialDelay, BackoffExponent(a), BackoffExponent(b));
  }

  lemma {:induction false} DoubledGrowsStrictly(delay: real, a: nat, b: nat)
    requires 0.0 < delay && a < b
    ensures 0.0 < Doubled(delay, a) < Doubled(delay, b)
    decreases b
  {
    if a + 1 < b {
      DoubledGrowsStrictly(delay, a, b - 1);
    } else if a > 0 {
      DoubledGrowsStrictly(delay, a - 1, a);
    }
  }

  /** The documented delay, initial * 2^(n - 1) up to an hour, is what attempt `n` waits exactly
      when the exponent is not clamped or the clamp cannot show. */
  lemma BackoffIsDocumented(policy: RetryPolicy, n: nat)
    requires policy.backoff.Exponential? && policy.initialDelay >= 0.0 && n >= 1
    ensures BackoffDelay(policy, n) == MinReal(Doubled(policy.initialDelay, n - 1), MAX_BACKOFF_DELAY) <==>
              n <= 64 || policy.initialDelay == 0.0 || Doubled(policy.initialDelay, 63) >= MAX_BACKOFF_DELAY
  {
    var delay := policy.initialDelay;
    if n > 64 {
      DoubledGrows(delay, 63, n - 1);
      if delay > 0.0 {
        DoubledGrowsStrictly(delay, 63, n - 1);
      } else {
        DoubledZero(63);
        DoubledZero(n - 1);
      }
    }
  }

  /** Fixed backoff always waits the initial delay. */
  lemma FixedBackoffIsConstant(policy: RetryPolicy, n: int)
    requires policy.backoff.Fixed?
    ensures BackoffDelay(policy, n) == policy.initialDelay
  {
  }

  lemma {:induction false} DoubledZero(n: nat)
    ensures Doubled(0.0, n) == 0.0
  {
    if n > 0 {
      DoubledZero(n - 1);
    }
  }
}
