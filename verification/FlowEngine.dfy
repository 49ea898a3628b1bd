/** The flow engine: activation with retries, the run loop, crash recovery and replay.
    A process may die between any two committed writes; `Dies` is that choice. */
module FlowEngine {
  import opened Wrappers
  import opened Documents
  import opened FlowExpressions
  import opened FlowModel
  import opened FlowReplay
  import opened FlowBudgets
  import opened FlowRuns

  /** What one call of a node handler does. */
  datatype Attempt =
    | Returned(output: Fields, tokens: real, cost: real)
    | Pausing(prompt: Fields)
    | Raised(kind: ErrorKind)

  /** How an activation, or a whole session, ends. `Ended` means a terminal or paused run. */
  datatype Progress = Continues | Ended | Crashed

  /** The attempt rows an activation appends: numbered 1, 2, ... for the same node and
      input, every one but the last a retryable failure. */
  predicate AttemptRows(before: seq<Step>, after: seq<Step>, node: string, input: Fields)
  {
    && |before| <= |after| && after[..|before|] == before
    && (forall k | |before| <= k < |after| ::
          after[k].node == node && after[k].input == input && after[k].attempt == k - |before| + 1)
    && (forall k | |before| <= k < |after| - 1 ::
          after[k].status.Failed? && after[k].error.NodeFailed?)
  }

  /** One more attempt row. */
  predicate OneAttempt(before: seq<Step>, after: seq<Step>, node: string, input: Fields, attempt: nat)
  {
    && |after| == |before| + 1 && after[..|before|] == before
    && var row := Last(after); row.node == node && row.input == input && row.attempt == attempt
  }

  lemma AttemptRowsExtend(before: seq<Step>, mid: seq<Step>, after: seq<Step>, node: string, input: Fields, attempt: nat)
    requires AttemptRows(before, mid, node, input) && OneAttempt(mid, after, node, input, attempt)
    requires attempt == |mid| - |before| + 1
    requires |mid| > |before| ==> Last(mid).status.Failed? && Last(mid).error.NodeFailed?
    ensures AttemptRows(before, after, node, input)
  {
    assert after[..|before|] == after[..|mid|][..|before|];
    assert forall k | 0 <= k < |mid| :: after[k] == mid[k];
  }

  /** Only the last row changed, in how it ended. */
  predicate ClosesLast(before: seq<Step>, after: seq<Step>)
  {
    && |after| == |before| && before != [] && after[..|after| - 1] == before[..|before| - 1]
    && var row := Last(after);
       row == Last(before).(status := row.status, output := row.output, error := row.error)
  }

  /** Every attempt that was running is now failed, and the other rows are as they were. */
  predicate NoneInterrupted(before: seq<Step>, after: seq<Step>)
  {
    |before| <= |after| &&
    forall i | 0 <= i < |before| ::
      if before[i].status.Running? then after[i].status.Failed? else after[i] == before[i]
  }

  lemma InterruptsAll(before: seq<Step>, after: seq<Step>)
    requires KeepsRows(MarkInterrupted(before), after)
    ensures NoneInterrupted(before, after)
  {
    assert forall i | 0 <= i < |before| :: after[i] == after[..|before|][i];
  }

  predicate KeepsRows(before: seq<Step>, after: seq<Step>)
  {
    |before| <= |after| && after[..|before|] == before
  }

  /** The new rows are attempts 1, 2, ... at the node. */
  predicate AttemptsNumbered(before: seq<Step>, after: seq<Step>, node: string)
  {
    && KeepsRows(before, after)
    && forall k | |before| <= k < |after| :: after[k].node == node && after[k].attempt == k - |before| + 1
  }

  lemma ClosingKeepsNumbers(before: seq<Step>, mid: seq<Step>, after: seq<Step>, node: string)
    requires AttemptsNumbered(before, mid, node) && ClosesLast(mid, after) && |mid| > |before|
    ensures AttemptsNumbered(before, after, node)
  {
    var n := |after| - 1;
    assert after[..|before|] == after[..n][..|before|] == mid[..|before|];
    forall k | |before| <= k < |after| ensures after[k].node == node && after[k].attempt == k - |before| + 1 {
      if k < n {
        assert after[k] == after[..n][k] == mid[..n][k] == mid[k];
      }
    }
  }

  /** The usage the handlers of some completed activations reported. */
  function TokensOf(used: seq<Attempt>): real
  {
    if used == [] then 0.0
    else TokensOf(used[..|used| - 1]) + (if used[|used| - 1].Returned? then used[|used| - 1].tokens else 0.0)
  }

  function CostOf(used: seq<Attempt>): real
  {
    if used == [] then 0.0
    else CostOf(used[..|used| - 1]) + (if used[|used| - 1].Returned? then used[|used| - 1].cost else 0.0)
  }

  /** The checkpointed metrics grew by exactly that usage. */
  predicate Charged(before: State, after: State, used: seq<Attempt>)
  {
    after.tokens == before.tokens + TokensOf(used) && after.cost == before.cost + CostOf(used)
  }

  /** What a completed step stores of what its handler returned. */
  predicate StoredFrom(s: Step, a: Attempt)
  {
    a.Returned? && RoundTrip(Dict(a.output)) == Some(Dict(OutputOf(s)))
  }

  /** The steps completed since `before` are those of the handlers in `used`, one each. */
  predicate CompletedBy(before: seq<Step>, after: seq<Step>, used: seq<Attempt>)
  {
    && |after| == |before| + |used| && after[..|before|] == before
    && forall i | 0 <= i < |used| :: StoredFrom(after[|before| + i], used[i])
  }

  /** No activation began once what was charged before it had passed the budget. */
  predicate StartedWithin(before: State, budgets: Budgets, used: seq<Attempt>)
  {
    forall k | 0 <= k < |used| ::
      && before.tokens + TokensOf(used[..k]) <= budgets.maxTokens as real
      && before.cost + CostOf(used[..k]) <= budgets.maxCost
  }

  lemma StartedWithinExtends(before: State, mid: State, budgets: Budgets, used: seq<Attempt>, more: seq<Attempt>)
    requires StartedWithin(before, budgets, used) && Charged(before, mid, used) && |more| <= 1
    requires mid.tokens <= budgets.maxTokens as real && mid.cost <= budgets.maxCost
    ensures StartedWithin(before, budgets, used + more)
  {
    var longer := used + more;
    forall k | 0 <= k < |longer|
      ensures before.tokens + TokensOf(longer[..k]) <= budgets.maxTokens as real
      ensures before.cost + CostOf(longer[..k]) <= budgets.maxCost
    {
      assert longer[..k] == if k < |used| then used[..k] else used;
    }
  }

  lemma UsageExtends(used: seq<Attempt>, a: Attempt)
    requires a.Returned?
    ensures TokensOf(used + [a]) == TokensOf(used) + a.tokens && CostOf(used + [a]) == CostOf(used) + a.cost
  {
    assert (used + [a])[..|used|] == used;
  }

  lemma OneUsage(a: Attempt)
    requires a.Returned?
    ensures TokensOf([a]) == a.tokens && CostOf([a]) == a.cost
  {
    assert [a][..0] == [];
  }

  lemma ChargedExtends(before: State, mid: State, after: State, used: seq<Attempt>, more: seq<Attempt>)
    requires Charged(before, mid, used) && Charged(mid, after, more)
    requires |more| <= 1 && forall a | a in more :: a.Returned?
    ensures Charged(before, after, used + more)
  {
    if more == [] {
      assert used + more == used;
    } else {
      UsageExtends(used, more[0]);
      UsageExtends([], more[0]);
      assert [] + [more[0]] == more;
    }
  }

  /** At most one more step has completed. */
  predicate Grew(before: seq<Step>, after: seq<Step>)
  {
    after == before || (|after| == |before| + 1 && after[..|before|] == before)
  }

  /** What an activation does to the path, the metrics and the events. */
  ghost predicate Activated(before: Db, after: Db, p: Progress, used: seq<Attempt>)
  {
    && |used| <= 1 && (forall a | a in used :: a.Returned?) && Charged(before.state, after.state, used)
    && if p.Continues? then
         && |used| == 1 && PathOf(after) != [] && StoredFrom(Last(PathOf(after)), used[0])
         && PathOf(after) == PathOf(before) + [Last(PathOf(after))]
         && after.routed == before.routed + {Last(PathOf(after)).id}
       else after.routed == before.routed && Grew(PathOf(before), PathOf(after))
  }

  lemma ActivatedFrom(before: Db, mid: Db, after: Db, p: Progress, used: seq<Attempt>)
    requires Activated(mid, after, p, used)
    requires PathOf(mid) == PathOf(before) && mid.state == before.state && mid.routed == before.routed
    ensures Activated(before, after, p, used)
  {
  }

  lemma NotActivated(before: Db, after: Db, p: Progress)
    requires !p.Continues? && PathOf(after) == PathOf(before)
    requires after.state == before.state && after.routed == before.routed
    ensures Activated(before, after, p, [])
  {
  }

  /** What a session has done so far. */
  ghost predicate Tallied(before: Db, after: Db, budgets: Budgets, used: seq<Attempt>)
  {
    && KeepsRows(before.steps, after.steps)
    && Charged(before.state, after.state, used) && StartedWithin(before.state, budgets, used)
    && CompletedBy(PathOf(before), PathOf(after), used)
    && (Announced(PathOf(before), before.routed) ==> Announced(PathOf(after), after.routed))
  }

  /** What it has done when it stops. */
  ghost predicate Closed(before: Db, after: Db, budgets: Budgets, used: seq<Attempt>)
  {
    && KeepsRows(before.steps, after.steps)
    && Charged(before.state, after.state, used) && StartedWithin(before.state, budgets, used)
    && (Announced(PathOf(before), before.routed) ==> AnnouncedButLast(PathOf(after), after.routed))
  }

  lemma RowsKept(a: seq<Step>, b: seq<Step>, c: seq<Step>)
    requires KeepsRows(a, b) && KeepsRows(b, c)
    ensures KeepsRows(a, c)
  {
    assert c[..|a|] == c[..|b|][..|a|];
  }

  lemma TallyStep(before: Db, mid: Db, after: Db, budgets: Budgets, used: seq<Attempt>, p: Progress, more: seq<Attempt>)
    requires Tallied(before, mid, budgets, used) && Activated(mid, after, p, more)
    requires KeepsRows(mid.steps, after.steps)
    requires mid.state.tokens <= budgets.maxTokens as real && mid.state.cost <= budgets.maxCost
    ensures Closed(before, after, budgets, used + more)
    ensures p.Continues? ==> Tallied(before, after, budgets, used + more)
  {
    RowsKept(before.steps, mid.steps, after.steps);
    StartedWithinExtends(before.state, mid.state, budgets, used, more);
    ChargedExtends(before.state, mid.state, after.state, used, more);
    if p.Continues? {
      CompletedByExtends(PathOf(before), PathOf(mid), Last(PathOf(after)), used, more[0]);
      assert more == [more[0]];
    }
    if Announced(PathOf(mid), mid.routed) {
      if p.Continues? {
        AnnouncedNext(PathOf(mid), Last(PathOf(after)), mid.routed);
      } else {
        AnnouncedExtends(PathOf(mid), PathOf(after), after.routed);
      }
    }
  }

  lemma AnnouncedExtends(before: seq<Step>, after: seq<Step>, routed: set<nat>)
    requires Announced(before, routed) && Grew(before, after)
    ensures AnnouncedButLast(after, routed)
  {
    forall i | 0 <= i < |after| - 1 ensures after[i].id in routed {
      assert after[i] == before[i];
    }
  }

  lemma AnnouncedNext(before: seq<Step>, last: Step, routed: set<nat>)
    requires Announced(before, routed)
    ensures Announced(before + [last], routed + {last.id})
  {
  }

  lemma CompletedByExtends(before: seq<Step>, mid: seq<Step>, row: Step, used: seq<Attempt>, a: Attempt)
    requires CompletedBy(before, mid, used) && StoredFrom(row, a)
    ensures CompletedBy(before, mid + [row], used + [a])
  {
    var after, longer := mid + [row], used + [a];
    forall i | 0 <= i < |longer| ensures StoredFrom(after[|before| + i], longer[i]) {
      if i < |used| {
        assert after[|before| + i] == mid[|before| + i] && longer[i] == used[i];
      }
    }
  }

  function AttemptLimit(policy: RetryPolicy): nat
  {
    if policy.maxAttempts > 1 then policy.maxAttempts else 1
  }

  /** Why a failed attempt ends the run: it may not be retried, it was the last allowed, or its
      backoff would overrun the deadline. */
  predicate GivesUp(policy: RetryPolicy, kind: ErrorKind, attempt: nat, deadline: real, now: real, stop: StopReason)
  {
    if kind.NodeFailed? && attempt < policy.maxAttempts
    then now + BackoffDelay(policy, attempt) > deadline && stop.BudgetExhausted?
    else stop == (if kind.UnsupportedNode? then Unsupported
                  else if kind.BudgetExceeded? then BudgetExhausted else NodeFailure)
  }

  function FailureReason(kind: ErrorKind): StopReason
  {
    if kind.UnsupportedNode? then Unsupported
    else if kind.BudgetExceeded? then BudgetExhausted
    else NodeFailure
  }

  lemma EvalDocumentIsJson(f: Flow, db: Db)
    requires WellFormed(f, db)
    ensures IsJson(EvalDocument(f.input, db.state.nodes))
  {
    var nodes := db.state.nodes;
    assert forall id | id in nodes :: IsJson(Dict(map["output" := Dict(nodes[id])]));
  }

  /** A step row holds the input the handler was given: it survives the JSON column. */
  lemma StepInputIsStored(f: Flow, db: Db, node: Node)
    requires WellFormed(f, db) && StepInput(f, node, db.state.nodes).Some?
    ensures var x := StepInput(f, node, db.state.nodes).value; RoundTrip(Dict(x)) == Some(Dict(x))
  {
    EvalDocumentIsJson(f, db);
    RenderJson(Object(node.bindings), EvalDocument(f.input, db.state.nodes), f.show);
    RoundTripFixpoint(Dict(StepInput(f, node, db.state.nodes).value));
  }

  /** Marking orphaned attempts failed changes nothing a recovery decision reads. */
  lemma InterruptKeepsRows(f: Flow, db: Db)
    requires WellFormed(f, db)
    ensures
      var after := db.(steps := MarkInterrupted(db.steps));
      && WellFormed(f, after) && SameRows(db, after)
      && (Faithful(f, after) <==> Faithful(f, db)) && (Diverged(f, after) <==> Diverged(f, db))
      && (Recovers(f, after) <==> Recovers(f, db))
      && forall i | 0 <= i < |db.steps| ::
           if db.steps[i].status.Running? then after.steps[i].status.Failed? else after.steps[i] == db.steps[i]
  {
    var after := db.(steps := MarkInterrupted(db.steps));
    CompletedInterrupted(db.steps);
    InterruptIsWellFormed(f, db);
    SameRowsSameFaith(f, db, after);
    SameRowsSameRecovery(f, db, after);
  }

  lemma InterruptIsWellFormed(f: Flow, db: Db)
    requires WellFormed(f, db)
    ensures WellFormed(f, db.(steps := MarkInterrupted(db.steps)))
  {
  }

  /** Reconciling an unrouted step leaves a run standing as `Recovers` says. */
  lemma ReconcileStands(f: Flow, db: Db)
    requires (Faithful(f, db) || Diverged(f, db)) && !Terminal(db) && Unrouted(db).Some?
    ensures
      var u := Unrouted(db).value;
      var r := Rerouted(f, db, u);
      var failed := Checkpointed(db.state, u.node, OutputOf(u), db.state.cursor);
      && u.id < |db.steps|
      && (r.Go? || r.Halt? ==>
            Routable(Recovers(f, db), f, db.(state := Checkpointed(db.state, u.node, OutputOf(u), CursorOf(r)))))
      && (r.PredicateError? ==> Standing(Recovers(f, db), f, Failing(db, failed, PredicateFailure)))
      && (r.NoRoute? ==> Standing(Recovers(f, db), f, Failing(db, failed, RouteMissing)))
  {
    UnroutedIsStep(f, db);
    if !Faithful(f, db) {
      ReconcileDiverged(f, db);
    } else if SkipsVisit(f, db) {
      SkippedVisitDiverges(f, db);
    } else {
      ReconcileStaysFaithful(f, db);
    }
  }

  lemma RoutedStaysWellFormed(f: Flow, db: Db, id: nat)
    requires WellFormed(f, db) && id < |db.steps|
    ensures WellFormed(f, db.(routed := db.routed + {id}))
  {
  }

  /** A terminal run replays, from the outputs it checkpointed, exactly if it stands faithful. */
  lemma StandingDecidesReplay(faithful: bool, f: Flow, db: Db)
    requires Standing(faithful, f, db) && Terminal(db)
    ensures Replays(f, db) <==> faithful
    ensures faithful ==> db.state.nodes == NodesAfter(PathOf(db))
  {
    if faithful {
      FaithfulReplays(f, db);
    } else {
      DivergedNeverReplays(f, db);
    }
  }

  class Engine {
    const flow: Flow
    const maxSteps: nat
    /** The rows of the run, as the store holds them. */
    var db: Db

    constructor (flow: Flow, maxSteps: nat)
      requires ValidManifest(flow.manifest) && EntryNode(flow.manifest).Some? && JsonFields(flow.input)
      ensures this.flow == flow && this.maxSteps == maxSteps
      ensures Faithful(flow, db) && db.status.Pending? && Settled(flow, db) && db.steps == []
      ensures db.state.tokens == 0.0 && db.state.cost == 0.0 && Announced(PathOf(db), db.routed)
    {
      this.flow := flow;
      this.maxSteps := maxSteps;
      db := Db(Pending, NotStopped, State(Some(EntryNode(flow.manifest).value.id), map[], 0.0, 0.0), [], {});
      new;
      EntryNodeIsDeclared(flow.manifest);
    }

    method Dies() returns (dies: bool)
    {
      dies := *;
    }

    method Clock() returns (now: real)
    {
      now := *;
    }

    method CallHandler() returns (a: Attempt)
    {
      a := *;
    }

    /** A sleep that takes exactly the requested delay. */
    method Sleep(now: real, delay: real) returns (wakes: real)
      ensures wakes == now + delay
    {
      wakes := now + delay;
    }

    /** Marks the run failed; the process may die before the write. */
    method FailRun(state: State, reason: StopReason) returns (p: Progress)
      modifies this
      ensures (p.Crashed? && db == old(db)) || (p.Ended? && db == Failing(old(db), state, reason))
    {
      var dies := Dies();
      if dies { return Crashed; }
      db := Failing(db, state, reason);
      p := Ended;
    }

    /** One attempt: opens its row, calls the handler, and closes the row if it raised. */
    method TryOnce(node: Node, input: Fields, attempt: nat)
      returns (crashed: bool, a: Attempt, ghost handled: Attempt)
      requires WellFormed(flow, db)
      requires RoundTrip(Dict(input)) == Some(Dict(input))
      modifies this
      ensures WellFormed(flow, db) && PathOf(db) == old(PathOf(db))
      ensures db == old(db).(steps := db.steps)
      ensures db.steps == old(db.steps) || OneAttempt(old(db.steps), db.steps, node.id, input, attempt)
      ensures !crashed ==> |db.steps| == |old(db.steps)| + 1
      ensures !crashed && !a.Raised? ==> Last(db.steps).status.Running?
      ensures !crashed && a.Raised? ==>
                && Last(db.steps).status.Failed? && Last(db.steps).error == a.kind
                && (a.kind.UnsupportedNode? || a.kind.BudgetExceeded? || a.kind.NodeFailed?)
      ensures !crashed ==> a == if !handled.Raised? || handled.kind.UnsupportedNode? || handled.kind.BudgetExceeded?
                                then handled else Raised(NodeFailed)
    {
      a := Pausing(map[]);
      handled := a;
      crashed := Dies();
      if crashed { return; }
      var stored := RoundTrip(Dict(input)).value.fields;
      OpenKeepsPath(flow, db, node.id, attempt, stored);
      db := OpenStep(db, node.id, attempt, stored);
      crashed := Dies();
      if crashed { return; }
      a := CallHandler();
      handled := a;
      if a.Raised? {
        if !a.kind.UnsupportedNode? && !a.kind.BudgetExceeded? {
          a := Raised(NodeFailed);
        }
        crashed := Dies();
        if crashed { return; }
        CloseKeepsPath(flow, db, Failed, a.kind);
        db := CloseStep(db, Failed, None, a.kind);
      }
    }

    /** After a failed attempt: fails the run, or sleeps until the next one. */
    method BackOff(kind: ErrorKind, policy: RetryPolicy, attempt: nat, deadline: real)
      returns (p: Progress, ghost wakes: real, ghost now: real)
      modifies this
      ensures p.Continues? ==>
                db == old(db) && kind.NodeFailed? && attempt < policy.maxAttempts && wakes <= deadline
      ensures p.Ended? ==>
                db == Failing(old(db), old(db.state), db.stop) && GivesUp(policy, kind, attempt, deadline, now, db.stop)
      ensures p.Crashed? ==> db == old(db)
    {
      wakes, now := 0.0, 0.0;
      var willRetry := kind.NodeFailed? && attempt < policy.maxAttempts;
      if !willRetry {
        p := FailRun(db.state, FailureReason(kind));
        return;
      }
      var delay := BackoffDelay(policy, attempt);
      var clock := Clock();
      now := clock;
      if clock + delay > deadline {
        p := FailRun(db.state, BudgetExhausted);
        return;
      }
      var up := Sleep(clock, delay);
      wakes := up;
      p := Continues;
    }

    /** The retry loop. On `Continues` the last row is running and `a` is its outcome. `woke`
        holds the time each backoff ends: one per retry, none past the deadline. A failure that
        may be retried ends the run only if at that time, `stopped`, its backoff would overrun. */
    method RunAttempts(node: Node, input: Fields, policy: RetryPolicy, deadline: real)
      returns (p: Progress, a: Attempt, ghost woke: seq<real>, ghost stopped: real)
      requires WellFormed(flow, db) && !Terminal(db)
      requires RoundTrip(Dict(input)) == Some(Dict(input))
      modifies this
      ensures WellFormed(flow, db) && PathOf(db) == old(PathOf(db))
      ensures db.routed == old(db.routed) && db.state == old(db.state)
      ensures AttemptRows(old(db.steps), db.steps, node.id, input)
      ensures |db.steps| <= |old(db.steps)| + if policy.maxAttempts > 1 then policy.maxAttempts else 1
      ensures (forall w | w in woke :: w <= deadline) && |db.steps| <= |old(db.steps)| + |woke| + 1
      ensures p.Ended? ==> db.status.FailedRun? && |db.steps| > |old(db.steps)| && Last(db.steps).status.Failed?
      ensures p.Ended? ==> GivesUp(policy, Last(db.steps).error, Last(db.steps).attempt, deadline, stopped, db.stop)
      ensures !p.Ended? ==> db.status == old(db.status)
      ensures p.Continues? ==>
                && !a.Raised? && |db.steps| > |old(db.steps)| && Last(db.steps).status.Running?
    {
      var attempt := 1;
      woke, stopped := [], 0.0;
      while true
        invariant |woke| == attempt - 1 && forall w | w in woke :: w <= deadline
        invariant 1 <= attempt <= AttemptLimit(policy)
        invariant WellFormed(flow, db) && PathOf(db) == old(PathOf(db))
        invariant db == old(db).(steps := db.steps)
        invariant |db.steps| == |old(db.steps)| + attempt - 1
        invariant AttemptRows(old(db.steps), db.steps, node.id, input)
        invariant attempt > 1 ==> Last(db.steps).status.Failed? && Last(db.steps).error.NodeFailed?
        decreases AttemptLimit(policy) - attempt
      {
        ghost var rows := db.steps;
        var crashed;
        ghost var handled;
        crashed, a, handled := TryOnce(node, input, attempt);
        if db.steps != rows {
          AttemptRowsExtend(old(db.steps), rows, db.steps, node.id, input, attempt);
        }
        if crashed {
          return Crashed, a, woke, stopped;
        }
        if !a.Raised? {
          return Continues, a, woke, stopped;
        }
        ghost var wakes;
        p, wakes, stopped := BackOff(a.kind, policy, attempt, deadline);
        if !p.Continues? {
          return;
        }
        woke := woke + [wakes];
        attempt := attempt + 1;
      }
    }

    /** Folds the last completed step into the checkpoint and routes. The process may die in
        the window before the checkpoint, or before the completion event. */
    method RouteAndCheckpoint(state: State, ghost faithful: bool) returns (p: Progress)
      requires Unfolded(faithful, flow, db) && db.steps != [] && Last(db.steps) == Last(PathOf(db))
      requires state.cursor == db.state.cursor
      requires var last := Last(db.steps); state.nodes == db.state.nodes[last.node := OutputOf(last)]
      modifies this
      ensures PathOf(db) == old(PathOf(db)) && db.steps == old(db.steps)
      ensures Standing(faithful, flow, db)
      ensures p.Continues? ==> Routable(faithful, flow, db)
      ensures p.Ended? ==> db.status.FailedRun?
      ensures !p.Ended? ==> db.status == old(db.status)
      ensures db.state == old(db.state) || (db.state.tokens == state.tokens && db.state.cost == state.cost)
      ensures !p.Crashed? ==> db.state.tokens == state.tokens && db.state.cost == state.cost
      ensures db.routed == if p.Continues? then old(db.routed) + {Last(db.steps).id} else old(db.routed)
    {
      var last := Last(db.steps);
      var r := Route(flow, last.node, state.nodes);
      if r.PredicateError? || r.NoRoute? {
        var reason := if r.PredicateError? then PredicateFailure else RouteMissing;
        FailureSettles(faithful, flow, db, state, reason);
        p := FailRun(state, reason);
        return;
      }
      var next := state.(cursor := CursorOf(r));
      CheckpointSettles(faithful, flow, db, next);
      var dies := Dies();
      if dies { return Crashed; }
      db := db.(state := next);
      dies := Dies();
      if dies { return Crashed; }
      SamePathSameStanding(faithful, flow, db, db.(routed := db.routed + {last.id}));
      db := db.(routed := db.routed + {last.id});
      p := Continues;
    }

    /** Leaves the attempt waiting for a human, and the run with it. */
    method Pause(prompt: Fields) returns (p: Progress)
      requires WellFormed(flow, db) && db.steps != [] && Last(db.steps).status.Running?
      modifies this
      ensures WellFormed(flow, db) && PathOf(db) == old(PathOf(db)) && db.state == old(db.state)
      ensures db == CloseStep(old(db), Waiting, Some(prompt), NoError).(status := db.status)
      ensures (p.Ended? && db.status.WaitingHuman?) || (p.Crashed? && db.status == old(db.status))
    {
      CloseKeepsPath(flow, db, Waiting, NoError);
      db := CloseStep(db, Waiting, Some(prompt), NoError);
      var dies := Dies();
      if dies { return Crashed; }
      db := db.(status := WaitingHuman);
      p := Ended;
    }

    /** Commits a completed step, charges its usage and routes. */
    method CompleteAttempt(node: Node, a: Attempt, output: Fields, ghost faithful: bool)
      returns (p: Progress, ghost used: seq<Attempt>)
      requires Ready(flow, db, node) && Routable(faithful, flow, db) && JsonFields(output)
      requires a.Returned? && RoundTrip(Dict(a.output)) == Some(Dict(output))
      modifies this
      ensures Standing(faithful, flow, db)
      ensures p.Continues? ==> Routable(faithful, flow, db) && used == [a]
      ensures p.Ended? ==> db.status.FailedRun?
      ensures !p.Ended? ==> db.status == old(db.status)
      ensures db.steps == CloseStep(old(db), Completed, Some(output), NoError).steps
      ensures PathOf(db) == old(PathOf(db)) + [Last(db.steps)] && StoredFrom(Last(db.steps), a)
      ensures (used == [] || used == [a]) && Charged(old(db.state), db.state, used)
      ensures db.routed == if p.Continues? then old(db.routed) + {Last(db.steps).id} else old(db.routed)
    {
      used := [];
      CompleteOpensWindow(flow, db, node, output);
      db := CloseStep(db, Completed, Some(output), NoError);
      var state := db.state.(nodes := db.state.nodes[node.id := output],
                             tokens := db.state.tokens + a.tokens, cost := db.state.cost + a.cost);
      p := RouteAndCheckpoint(state, faithful);
      OneUsage(a);
      if db.state.tokens == state.tokens && db.state.cost == state.cost {
        used := [a];
      }
    }

    /** Records the outcome of a successful attempt and moves on; `used` is what it charged to
        the run. */
    method FinishActivation(node: Node, a: Attempt, ghost faithful: bool)
      returns (p: Progress, ghost used: seq<Attempt>)
      requires Ready(flow, db, node) && Routable(faithful, flow, db) && !a.Raised?
      modifies this
      ensures Standing(faithful, flow, db)
      ensures p.Continues? ==> Routable(faithful, flow, db)
      ensures p.Ended? ==> db.status.FailedRun? || db.status.WaitingHuman?
      ensures !p.Ended? ==> db.status == old(db.status)
      ensures ClosesLast(old(db.steps), db.steps)
      ensures (used == [] || used == [a]) && Activated(old(db), db, p, used)
      ensures a.Returned? && RoundTrip(Dict(a.output)).None? && !p.Continues? && db.steps != old(db.steps) ==>
                PathOf(db) == old(PathOf(db)) && Last(db.steps).error.BadOutput? && (p.Ended? ==> db.stop.NodeFailure?)
    {
      used := [];
      var before := db;
      var dies := Dies();
      if dies {
        SamePathSameStanding(faithful, flow, before, db);
        return Crashed, used;
      }
      if a.Pausing? {
        p := Pause(a.prompt);
        SamePathSameStanding(faithful, flow, before, db);
        return p, used;
      }
      var canonical := RoundTrip(Dict(a.output));
      if canonical.None? {
        CloseKeepsPath(flow, db, Failed, BadOutput);
        db := CloseStep(db, Failed, None, BadOutput);
        p := FailRun(db.state, NodeFailure);
        SamePathSameStanding(faithful, flow, before, db);
        return;
      }
      RoundTripYieldsJson(Dict(a.output));
      p, used := CompleteAttempt(node, a, canonical.value.fields, faithful);
    }

    /** Executes one node activation, honouring retries, and advances the cursor. Whether it
        continues, stops or dies in any write, a faithful run stays faithful and a diverged
        run stays diverged. */
    method ActivateNode(node: Node, deadline: real, ghost faithful: bool)
      returns (p: Progress, ghost used: seq<Attempt>)
      requires Routable(faithful, flow, db) && !Terminal(db)
      requires db.state.cursor == Some(node.id) && FindNode(flow.manifest.nodes, node.id) == Some(node)
      modifies this
      ensures Standing(faithful, flow, db)
      ensures p.Continues? ==> Routable(faithful, flow, db)
      ensures p.Ended? ==> db.status.FailedRun? || db.status.WaitingHuman?
      ensures !p.Ended? ==> db.status == old(db.status)
      ensures node.retries.Some? ==> |db.steps| <= |old(db.steps)| + AttemptLimit(node.retries.value)
      ensures node.retries.None? ==> |db.steps| <= |old(db.steps)| + AttemptLimit(flow.manifest.defaultRetries)
      ensures AttemptsNumbered(old(db.steps), db.steps, node.id)
      ensures Activated(old(db), db, p, used)
      ensures old(StepInput(flow, node, db.state.nodes).None?) ==>
                !p.Continues? && db.steps == old(db.steps) && (p.Ended? ==> db.stop.BindingError?)
    {
      used := [];
      ghost var before := db;
      var input := StepInput(flow, node, db.state.nodes);
      if input.None? {
        p := FailRun(db.state, BindingError);
        SamePathSameStanding(faithful, flow, before, db);
        NotActivated(before, db, p);
        return;
      }
      StepInputIsStored(flow, db, node);
      var a;
      ghost var woke, stopped;
      p, a, woke, stopped := RunAttempts(node, input.value, PolicyOf(node), deadline);
      SamePathSameStanding(faithful, flow, before, db);
      if !p.Continues? {
        NotActivated(before, db, p);
        return;
      }
      ghost var mid := db;
      p, used := FinishActivation(node, a, faithful);
      ActivatedFrom(before, mid, db, p, used);
      ClosingKeepsNumbers(before.steps, mid.steps, db.steps, node.id);
    }

    function PolicyOf(node: Node): RetryPolicy
    {
      if node.retries.Some? then node.retries.value else flow.manifest.defaultRetries
    }

    /** Activates the node at the cursor, and keeps the session's tally. */
    method ActivateCursor(budgets: Budgets, deadline: real, ghost started: real, ghost faithful: bool,
                          ghost before: Db, ghost sofar: seq<Attempt>)
      returns (p: Progress, ghost used: seq<Attempt>)
      requires Routable(faithful, flow, db) && db.status.Active? && db.state.cursor.Some?
      requires Tallied(before, db, budgets, sofar) && deadline == started + budgets.maxWallClock as real
      requires db.state.tokens <= budgets.maxTokens as real && db.state.cost <= budgets.maxCost
      modifies this
      ensures Standing(faithful, flow, db)
      ensures p.Continues? ==> Routable(faithful, flow, db) && Tallied(before, db, budgets, used)
      ensures Closed(before, db, budgets, used) && |used| <= |sofar| + 1
      ensures p.Continues? ==> |used| == |sofar| + 1
      ensures p.Ended? ==> db.status.FailedRun? || db.status.WaitingHuman?
      ensures !p.Ended? ==> db.status.Active?
    {
      FindNodeFinds(flow.manifest.nodes, db.state.cursor.value);
      var node := FindNode(flow.manifest.nodes, db.state.cursor.value).value;
      ghost var mid, more := db, [];
      p, more := ActivateNode(node, deadline, faithful);
      TallyStep(before, mid, db, budgets, sofar, p, more);
      used := sofar + more;
    }

    /** The walk is over: the run succeeds unless its budgets were passed. */
    method Conclude(budgets: Budgets, started: real, ghost faithful: bool) returns (p: Progress, ghost elapsed: real)
      requires Routable(faithful, flow, db) && db.status.Active? && db.state.cursor.None?
      modifies this
      ensures !p.Continues? && Standing(faithful, flow, db)
      ensures (p.Ended? <==> Terminal(db)) && db == old(db).(status := db.status, stop := db.stop)
      ensures p.Ended? ==> if db.status.Succeeded? then db.stop.RunCompleted? else db.stop.BudgetExhausted?
      ensures db.status.Succeeded? ==>
                && db.state.tokens <= budgets.maxTokens as real && db.state.cost <= budgets.maxCost
                && elapsed <= budgets.maxWallClock as real
    {
      SamePathSameStanding(faithful, flow, db, db);
      var now := Clock();
      elapsed := now - started;
      if Violates(budgets, db.state.tokens, db.state.cost, now - started, 0, maxSteps) {
        SamePathSameStanding(faithful, flow, db, Failing(db, db.state, BudgetExhausted));
        p := FailRun(db.state, BudgetExhausted);
        return;
      }
      var dies := Dies();
      if dies { return Crashed, elapsed; }
      SamePathSameStanding(faithful, flow, db, db.(status := Succeeded, stop := RunCompleted));
      db := db.(status := Succeeded, stop := RunCompleted);
      p := Ended;
    }

    /** Drives the run from its persisted cursor until it stops or the process dies. The
        activation cap makes every session finite. */
    method RunLoop(budgets: Budgets, ghost faithful: bool)
      returns (p: Progress, ghost used: seq<Attempt>, ghost elapsed: real)
      requires Routable(faithful, flow, db) && !Terminal(db)
      modifies this
      ensures !p.Continues?
      ensures Standing(faithful, flow, db)
      ensures p.Ended? ==> Terminal(db) || db.status.WaitingHuman?
      ensures p.Crashed? ==> !Terminal(db)
      ensures db.status.Succeeded? ==>
                && db.state.cursor.None?
                && db.state.tokens <= budgets.maxTokens as real && db.state.cost <= budgets.maxCost
                && elapsed <= budgets.maxWallClock as real
                && CompletedBy(old(PathOf(db)), PathOf(db), used)
      ensures Charged(old(db.state), db.state, used) && StartedWithin(old(db.state), budgets, used)
      ensures |used| <= maxSteps && KeepsRows(old(db.steps), db.steps)
      ensures old(Announced(PathOf(db), db.routed)) ==>
                && AnnouncedButLast(PathOf(db), db.routed)
                && (db.status.Succeeded? ==> Announced(PathOf(db), db.routed))
    {
      used, elapsed := [], 0.0;
      var dies := Dies();
      if dies { return Crashed, used, elapsed; }
      SamePathSameStanding(faithful, flow, db, db.(status := Active));
      db := db.(status := Active);
      var started := Clock();
      var deadline := started + budgets.maxWallClock as real;
      var activations := 0;
      while db.state.cursor.Some?
        invariant Routable(faithful, flow, db) && db.status.Active?
        invariant Tallied(old(db), db, budgets, used) && |used| == activations <= maxSteps
        decreases maxSteps - activations
      {
        SamePathSameStanding(faithful, flow, db, db);
        var now := Clock();
        if Violates(budgets, db.state.tokens, db.state.cost, now - started, activations, maxSteps) {
          SamePathSameStanding(faithful, flow, db, Failing(db, db.state, BudgetExhausted));
          p := FailRun(db.state, BudgetExhausted);
          return;
        }
        p, used := ActivateCursor(budgets, deadline, started, faithful, old(db), used);
        if !p.Continues? {
          return;
        }
        activations := activations + 1;
      }
      p, elapsed := Conclude(budgets, started, faithful);
    }

    /** Folds a committed but unrouted step back into the state before the walk continues.
        The code decides by the missing completion event alone, so the run is on its decision
        path afterwards exactly if `Recovers` says so. */
    method ReconcileCrashWindow() returns (p: Progress)
      requires (Faithful(flow, db) || Diverged(flow, db)) && !Terminal(db)
      modifies this
      ensures p.Continues? ==> Routable(old(Recovers(flow, db)), flow, db)
      ensures p.Ended? ==> db.status.FailedRun? && Standing(old(Recovers(flow, db)), flow, db)
      ensures p.Crashed? ==> db == old(db) || Standing(old(Recovers(flow, db)), flow, db)
      ensures !p.Ended? ==> db.status == old(db.status)
      ensures db.steps == old(db.steps)
      ensures db.state.tokens == old(db.state.tokens) && db.state.cost == old(db.state.cost)
      ensures p.Continues? ==>
                db.routed == old(db.routed) + if old(Unrouted(db)).Some? then {old(Unrouted(db)).value.id} else {}
    {
      var u := Unrouted(db);
      if u.None? {
        return Continues;
      }
      ghost var recovers := Recovers(flow, db);
      var r := Rerouted(flow, db, u.value);
      ReconcileStands(flow, db);
      if r.PredicateError? || r.NoRoute? {
        var state := Checkpointed(db.state, u.value.node, OutputOf(u.value), db.state.cursor);
        p := FailRun(state, if r.PredicateError? then PredicateFailure else RouteMissing);
        return;
      }
      var dies := Dies();
      if dies { return Crashed; }
      db := db.(state := Checkpointed(db.state, u.value.node, OutputOf(u.value), CursorOf(r)));
      SamePathSameStanding(recovers, flow, db, db);
      dies := Dies();
      if dies { return Crashed; }
      RoutedStaysWellFormed(flow, db, u.value.id);
      SamePathSameStanding(recovers, flow, db, db.(routed := db.routed + {u.value.id}));
      db := db.(routed := db.routed + {u.value.id});
      p := Continues;
    }

    /** Resumes an interrupted run, whatever earlier crashes and resumes did to it. If it ends,
        it replays as deterministic if and only if its rows recover. If it dies again, its rows
        either stand as that says or are still those it was resumed from. */
    method ResumeRun(budgets: Budgets) returns (p: Progress, ghost used: seq<Attempt>)
      requires (Faithful(flow, db) || Diverged(flow, db)) && !Terminal(db)
      modifies this
      ensures !p.Continues?
      ensures p.Ended? ==> Terminal(db) || db.status.WaitingHuman?
      ensures Standing(old(Recovers(flow, db)), flow, db) || (p.Crashed? && SameRows(old(db), db))
      ensures Faithful(flow, db) || Diverged(flow, db)
      ensures Charged(old(db.state), db.state, used)
      ensures db.status.Succeeded? ==>
                db.state.tokens <= budgets.maxTokens as real && db.state.cost <= budgets.maxCost
      ensures p.Ended? ==> NoneInterrupted(old(db.steps), db.steps)
      ensures Terminal(db) ==> p.Ended? && (Replays(flow, db) <==> old(Recovers(flow, db)))
    {
      ghost var recovers := Recovers(flow, db);
      used := [];
      var dies := Dies();
      if dies { return Crashed, used; }
      InterruptKeepsRows(flow, db);
      db := db.(steps := MarkInterrupted(db.steps));
      p, used := Recover(budgets);
      InterruptsAll(old(db.steps), db.steps);
      if Terminal(db) {
        StandingDecidesReplay(recovers, flow, db);
      }
    }

    /** Reconciles the crash window and walks on. */
    method Recover(budgets: Budgets) returns (p: Progress, ghost used: seq<Attempt>)
      requires (Faithful(flow, db) || Diverged(flow, db)) && !Terminal(db)
      modifies this
      ensures !p.Continues? && (p.Ended? ==> Terminal(db) || db.status.WaitingHuman?)
      ensures p.Crashed? ==> !Terminal(db)
      ensures Standing(old(Recovers(flow, db)), flow, db) || (p.Crashed? && db == old(db))
      ensures Charged(old(db.state), db.state, used) && KeepsRows(old(db.steps), db.steps)
      ensures db.status.Succeeded? ==>
                db.state.tokens <= budgets.maxTokens as real && db.state.cost <= budgets.maxCost
    {
      ghost var recovers := Recovers(flow, db);
      used := [];
      p := ReconcileCrashWindow();
      if p.Continues? {
        ghost var elapsed;
        p, used, elapsed := RunLoop(budgets, recovers);
      }
    }

    /** Verifies a terminal run from its rows alone. */
    method ReplayRun() returns (report: Report)
      requires WellFormed(flow, db) && Terminal(db)
      ensures report.Deterministic() <==> Replays(flow, db)
    {
      ghost var rebuilt;
      report, rebuilt := ReplayDecisionPath(flow, db.steps, db.stop, db.state.cursor);
    }

    /** The first resume always recovers: a run that was never resumed has lost at most the event
        of its last completed step, whenever it died, so if its first resume ends it replays as
        deterministic. A visit can only be skipped by a later one. */
    method RunAndResumeOnce(budgets: Budgets) returns (p: Progress)
      requires Routable(true, flow, db) && !Terminal(db) && Announced(PathOf(db), db.routed)
      modifies this
      ensures Faithful(flow, db) && (Terminal(db) ==> Replays(flow, db))
    {
      ghost var used, elapsed;
      p, used, elapsed := RunLoop(budgets, true);
      if Terminal(db) {
        StandingDecidesReplay(true, flow, db);
        return;
      }
      AnnouncedRecovers(flow, db);
      p, used := ResumeRun(budgets);
    }

    /** A whole life of a run: it executes, dies in any write and is resumed, any number of
        times. When it ends it replays as deterministic if and only if it was never resumed or
        the rows of its last resume (`last`) recovered, and then its checkpointed outputs are
        those replay rebuilds. */
    method RunAndReplay(budgets: Budgets, restarts: nat) returns (report: Option<Report>, ghost last: Option<Db>)
      requires Routable(true, flow, db) && !Terminal(db)
      modifies this
      ensures report.Some? <==> Terminal(db)
      ensures report.Some? ==>
                (report.value.Deterministic() <==> last.None? || Recovers(flow, last.value))
      ensures report.Some? && report.value.Deterministic() ==> db.state.nodes == NodesAfter(PathOf(db))
    {
      ghost var used, elapsed;
      var p;
      p, used, elapsed := RunLoop(budgets, true);
      last := None;
      if Terminal(db) {
        StandingDecidesReplay(true, flow, db);
      }
      for i := 0 to restarts
        invariant Faithful(flow, db) || Diverged(flow, db)
        invariant Terminal(db) ==> (Replays(flow, db) <==> last.None? || Recovers(flow, last.value))
        invariant Terminal(db) && Replays(flow, db) ==> db.state.nodes == NodesAfter(PathOf(db))
      {
        if Terminal(db) {
          break;
        }
        last := Some(db);
        p, used := ResumeRun(budgets);
        if Terminal(db) {
          StandingDecidesReplay(Recovers(flow, last.value), flow, db);
        }
      }
      if !Terminal(db) {
        return None, last;
      }
      var r := ReplayRun();
      report := Some(r);
    }
  }
}
