/** The agent runtime: handlers run under budgets that fail closed, whatever the handler
    does with the exceptions it sees. */
module AgentRuntime {
  import opened Wrappers

  datatype Limits = Limits(tokensInput: int, tokensOutput: int, cost: real, maxToolCalls: int, maxSteps: int)

  datatype Ledger = Ledger(tokensInput: int, tokensOutput: int, cost: real, toolCalls: nat, steps: nat)

  predicate Exceeds(l: Ledger, limits: Limits)
  {
    l.tokensInput > limits.tokensInput || l.tokensOutput > limits.tokensOutput ||
    l.cost > limits.cost || l.toolCalls > limits.maxToolCalls || l.steps > limits.maxSteps
  }

  datatype Usage = Usage(tokensInput: int, tokensOutput: int, cost: real)

  const NO_USAGE := Usage(0, 0, 0.0)

  predicate NonNegative(u: Usage) { u.tokensInput >= 0 && u.tokensOutput >= 0 && u.cost >= 0.0 }

  datatype Raise = BudgetExceeded | ValidationError | OtherError

  /** A public call of the handler on its context. `ok` says whether the tool, skill or
      provider behind the call succeeds. */
  datatype Call =
    | ConsumeBudget(usage: Usage, tool: bool)
    | RecordStep(name: string, status: StepStatus)
    | CallTool(ok: bool)
    | CallSkill(ok: bool)
    | CallLlm(ok: bool, usage: Usage)

  /** A call, and whether the handler swallows what it raises. */
  datatype Action = Action(call: Call, swallows: bool)

  datatype StepStatus = StepCompleted | StepFailed

  datatype TimelineStep = TimelineStep(name: string, status: StepStatus)

  /** The run's accumulated state. `brokered` counts calls that reached the tool broker. */
  datatype Context = Context(ledger: Ledger, timeline: seq<TimelineStep>, brokered: nat)

  const FRESH_CONTEXT := Context(Ledger(0, 0, 0.0, 0, 0), [], 0)

  function Charge(l: Ledger, u: Usage, tool: bool): Ledger
  {
    Ledger(l.tokensInput + u.tokensInput, l.tokensOutput + u.tokensOutput, l.cost + u.cost,
           if tool then l.toolCalls + 1 else l.toolCalls, l.steps)
  }

  function Checked(l: Ledger, limits: Limits): Option<Raise>
  {
    if Exceeds(l, limits) then Some(BudgetExceeded) else None
  }

  /** One call: the context afterwards and what it raises. Tools and skills are charged
      before they are brokered; a model call is charged after the provider answers. */
  function Apply(limits: Limits, c: Context, call: Call): (Context, Option<Raise>)
  {
    match call
    case ConsumeBudget(u, tool) =>
      var l := Charge(c.ledger, u, tool);
      (c.(ledger := l), Checked(l, limits))
    case RecordStep(name, status) =>
      var l := c.ledger.(steps := c.ledger.steps + 1);
      if Exceeds(l, limits) then (c.(ledger := l), Some(BudgetExceeded))
      else (c.(ledger := l, timeline := c.timeline + [TimelineStep(name, status)]), None)
    case CallTool(ok) => Broker(limits, c, ok)
    case CallSkill(ok) => Broker(limits, c, ok)
    case CallLlm(ok, u) =>
      if !ok then (c, Some(OtherError))
      else
        var l := Charge(c.ledger, u, false);
        (c.(ledger := l), Checked(l, limits))
  }

  function Broker(limits: Limits, c: Context, ok: bool): (Context, Option<Raise>)
  {
    var l := Charge(c.ledger, NO_USAGE, true);
    if Exceeds(l, limits) then (c.(ledger := l), Some(BudgetExceeded))
    else (c.(ledger := l, brokered := c.brokered + 1), if ok then None else Some(OtherError))
  }

  /** A handler's calls, in order: an exception it does not swallow ends it. */
  function RunScript(limits: Limits, c: Context, script: seq<Action>): (Context, Option<Raise>)
    decreases |script|
  {
    if script == [] then (c, None)
    else
      var (after, raised) := Apply(limits, c, script[0].call);
      if raised.Some? && !script[0].swallows then (after, raised)
      else RunScript(limits, after, script[1..])
  }

  /** How the handler ends, if no call ends it: it returns an object that may or may not
      pass the output schema and the guardrails, returns something else, or raises. */
  datatype Finish = ReturnsObject(valid: bool, blocked: bool) | ReturnsOther | Raises(kind: Raise)

  datatype Status = Completed | Failed | Interrupted | Blocked

  datatype Result = Result(status: Status, context: Context)

  function Append(c: Context, name: string, status: StepStatus): Context
  {
    c.(timeline := c.timeline + [TimelineStep(name, status)])
  }

  function Stopped(c: Context, r: Raise): Result
  {
    match r
    case BudgetExceeded => Result(Interrupted, Append(c, "budget", StepFailed))
    case ValidationError => Result(Failed, Append(c, "validate-output", StepFailed))
    case OtherError => Result(Failed, Append(c, "handler-error", StepFailed))
  }

  function HandlerRaises(finish: Finish): Option<Raise>
  {
    match finish
    case Raises(kind) => Some(kind)
    case ReturnsOther => Some(ValidationError)
    case ReturnsObject(_, _) => None
  }

  /** A whole run. */
  function Execute(limits: Limits, inputValid: bool, script: seq<Action>, finish: Finish): Result
  {
    if !inputValid then Stopped(FRESH_CONTEXT, ValidationError)
    else
      var (c1, r1) := Apply(limits, FRESH_CONTEXT, RecordStep("validate-input", StepCompleted));
      if r1.Some? then Stopped(c1, r1.value)
      else
        var c2 := c1.(ledger := c1.ledger.(steps := c1.ledger.steps + 1));
        if Exceeds(c2.ledger, limits) then Stopped(c2, BudgetExceeded)
        else
          var (c3, escaped) := RunScript(limits, c2, script);
          var raised := if escaped.Some? then escaped else HandlerRaises(finish);
          if raised.Some? then Stopped(Append(c3, "run-handler", StepFailed), raised.value)
          else Finalize(limits, Append(c3, "run-handler", StepCompleted), finish)
  }

  function Finalize(limits: Limits, c: Context, finish: Finish): Result
    requires finish.ReturnsObject?
  {
    var (c4, r4) := Apply(limits, c, RecordStep("handler-completed", StepCompleted));
    if r4.Some? then Stopped(c4, r4.value)
    else if !finish.valid then Stopped(c4, ValidationError)
    else
      var (c5, r5) := Apply(limits, c4, RecordStep("validate-output", StepCompleted));
      if r5.Some? then Stopped(c5, r5.value)
      else if !finish.blocked then Result(Completed, c5)
      else
        var (c6, r6) := Apply(limits, c5, RecordStep("guardrail-output", StepFailed));
        if r6.Some? then Stopped(c6, r6.value) else Result(Blocked, c6)
  }

  // -------------------------------------------------------------- guarantees

  /** Exactly when a run reports `completed`: its input was valid, its handler ended normally
      with an acceptable output, and every enforced dimension is within its limit at the end,
      whatever the handler swallowed on the way. */
  lemma CompletedExactlyWithinLimits(limits: Limits, inputValid: bool, script: seq<Action>, finish: Finish)
    ensures
      var r := Execute(limits, inputValid, script, finish);
      var (after, escaped) := RunScript(limits, HandlerContext(limits), script);
      && (r.status.Completed? ==> !Exceeds(r.context.ledger, limits))
      && (r.status.Completed? <==>
          && inputValid && !Exceeds(HandlerContext(limits).ledger, limits)
          && escaped.None? && finish == ReturnsObject(true, false)
          && !Exceeds(after.ledger.(steps := after.ledger.steps + 2), limits))
  {
    var (after, escaped) := RunScript(limits, HandlerContext(limits), script);
    if inputValid && !Exceeds(HandlerContext(limits).ledger, limits) && escaped.None? && finish.ReturnsObject? {
      var c := Append(after, "run-handler", StepCompleted);
      assert Execute(limits, inputValid, script, finish) == Finalize(limits, c, finish);
    }
  }

  // -------------------------------------------------------------- what is enforced

  /** What a call reports to the ledger: amounts, tool calls and steps. */
  datatype Report = Report(tokensInput: int, tokensOutput: int, cost: real, toolCalls: nat, steps: nat)

  function Reported(call: Call): Report
  {
    match call
    case ConsumeBudget(u, tool) => Report(u.tokensInput, u.tokensOutput, u.cost, if tool then 1 else 0, 0)
    case RecordStep(_, _) => Report(0, 0, 0.0, 0, 1)
    case CallTool(_) => Report(0, 0, 0.0, 1, 0)
    case CallSkill(_) => Report(0, 0, 0.0, 1, 0)
    case CallLlm(ok, u) => if ok then Report(u.tokensInput, u.tokensOutput, u.cost, 0, 0) else Report(0, 0, 0.0, 0, 0)
  }

  /** The sums of what some calls reported. */
  function Total(script: seq<Action>): Report
  {
    if script == [] then Report(0, 0, 0.0, 0, 0)
    else
      var first, rest := Reported(script[0].call), Total(script[1..]);
      Report(first.tokensInput + rest.tokensInput, first.tokensOutput + rest.tokensOutput,
             first.cost + rest.cost, first.toolCalls + rest.toolCalls, first.steps + rest.steps)
  }

  /** `after` is `before` with a report added, field by field. */
  predicate Adds(before: Ledger, r: Report, after: Ledger)
  {
    && after.tokensInput == before.tokensInput + r.tokensInput
    && after.tokensOutput == before.tokensOutput + r.tokensOutput
    && after.cost == before.cost + r.cost
    && after.toolCalls == before.toolCalls + r.toolCalls
    && after.steps == before.steps + r.steps
  }

  /** How many calls of the script are made: all, or up to the one whose exception escapes. */
  function Made(limits: Limits, c: Context, script: seq<Action>): (n: nat)
    ensures n <= |script|
    decreases |script|
  {
    if script == [] then 0
    else
      var (after, raised) := Apply(limits, c, script[0].call);
      if raised.Some? && !script[0].swallows then 1 else 1 + Made(limits, after, script[1..])
  }

  /** A call adds what it reports, and raises a breach exactly if it charges anything and some
      amount is then over its limit; only a failed model call charges nothing. */
  lemma CallCharges(limits: Limits, c: Context, call: Call)
    ensures
      var (after, raised) := Apply(limits, c, call);
      var l := after.ledger;
      && Adds(c.ledger, Reported(call), l)
      && (raised == Some(BudgetExceeded) <==>
          !(call.CallLlm? && !call.ok) &&
          (l.tokensInput > limits.tokensInput || l.tokensOutput > limits.tokensOutput || l.cost > limits.cost ||
           l.toolCalls > limits.maxToolCalls || l.steps > limits.maxSteps))
  {
  }

  /** A tool or skill call reaches the broker exactly if its charge is within budget, whether or
      not the tool then fails; a step is on the timeline exactly if it was not refused. */
  lemma CallReaches(limits: Limits, c: Context, call: Call)
    ensures
      var (after, raised) := Apply(limits, c, call);
      && after.brokered - c.brokered ==
           (if (call.CallTool? || call.CallSkill?) && raised != Some(BudgetExceeded) then 1 else 0)
      && after.timeline ==
           (if call.RecordStep? && raised.None? then c.timeline + [TimelineStep(call.name, call.status)] else c.timeline)
      && (call.CallTool? && !call.ok ==> raised.Some?) && (call.CallSkill? && !call.ok ==> raised.Some?)
  {
  }

  /** The limits leave room for the two steps before the handler. */
  predicate Starts(limits: Limits)
  {
    && limits.tokensInput >= 0 && limits.tokensOutput >= 0 && limits.cost >= 0.0
    && limits.maxToolCalls >= 0 && limits.maxSteps >= 2
  }

  lemma HandlerRuns(limits: Limits, script: seq<Action>, finish: Finish)
    requires Starts(limits)
    ensures
      var (after, escaped) := RunScript(limits, HandlerContext(limits), script);
      var raised := if escaped.Some? then escaped else HandlerRaises(finish);
      Execute(limits, true, script, finish) ==
        if raised.Some? then Stopped(Append(after, "run-handler", StepFailed), raised.value)
        else Finalize(limits, Append(after, "run-handler", StepCompleted), finish)
  {
  }

  /** How a run ends when its handler does not return an object: a breach interrupts it, and
      anything else fails it. */
  lemma HandlerEndsRun(limits: Limits, script: seq<Action>, finish: Finish)
    requires Starts(limits)
    ensures
      var escaped := RunScript(limits, HandlerContext(limits), script).1;
      var r := Execute(limits, true, script, finish);
      && (escaped.Some? ==> (r.status.Interrupted? <==> escaped.value.BudgetExceeded?))
      && (escaped.Some? && !escaped.value.BudgetExceeded? ==> r.status.Failed?)
      && (escaped.None? && finish == Raises(BudgetExceeded) ==> r.status.Interrupted?)
      && (escaped.None? && (finish.ReturnsOther? || (finish.Raises? && !finish.kind.BudgetExceeded?)) ==> r.status.Failed?)
    ensures Execute(limits, false, script, finish).status.Failed?
  {
    HandlerRuns(limits, script, finish);
  }

  /** How it ends when the handler does: an invalid output fails it and a guardrail blocks it,
      unless recording that is over budget. */
  lemma OutputEndsRun(limits: Limits, c: Context, finish: Finish)
    requires finish.ReturnsObject?
    ensures
      var r := Finalize(limits, c, finish);
      && (!finish.valid ==> r.status.Failed? || r.status.Interrupted?)
      && (finish.valid && finish.blocked ==> r.status.Blocked? || r.status.Interrupted?)
      && (finish.valid && !finish.blocked ==> r.status.Completed? || r.status.Interrupted?)
  {
  }

  /** The ledger is the sum of what the calls the handler made reported, swallowed or not. */
  lemma {:induction false} LedgerIsTotal(limits: Limits, c: Context, script: seq<Action>)
    ensures Adds(c.ledger, Total(script[..Made(limits, c, script)]), RunScript(limits, c, script).0.ledger)
    ensures RunScript(limits, c, script).1.None? ==> Made(limits, c, script) == |script|
    decreases |script|
  {
    if script != [] {
      var (after, raised) := Apply(limits, c, script[0].call);
      CallCharges(limits, c, script[0].call);
      var n := Made(limits, c, script);
      assert script[..n][0] == script[0];
      if raised.Some? && !script[0].swallows {
        assert script[..n][1..] == [];
      } else {
        LedgerIsTotal(limits, after, script[1..]);
        assert script[..n][1..] == script[1..][..n - 1];
      }
    }
  }

  /** A completed run has, in every dimension, reported no more than its limit: what its handler
      reported over the whole script, and the four steps of the runtime itself. */
  lemma CompletedReportsWithinLimits(limits: Limits, inputValid: bool, script: seq<Action>, finish: Finish)
    requires Execute(limits, inputValid, script, finish).status.Completed?
    ensures
      var r, ledger := Total(script), Execute(limits, inputValid, script, finish).context.ledger;
      && Adds(Ledger(0, 0, 0.0, 0, 4), r, ledger)
      && r.tokensInput <= limits.tokensInput && r.tokensOutput <= limits.tokensOutput
      && r.cost <= limits.cost && r.toolCalls <= limits.maxToolCalls && r.steps + 4 <= limits.maxSteps
  {
    CompletedLedger(limits, inputValid, script, finish);
    var c := HandlerContext(limits);
    HandlerStartsFresh(limits);
    LedgerIsTotal(limits, c, script);
    assert script[..|script|] == script;
  }

  lemma HandlerStartsFresh(limits: Limits)
    ensures HandlerContext(limits).ledger == Ledger(0, 0, 0.0, 0, 2)
  {
  }

  lemma FinalizedLedger(limits: Limits, c: Context, finish: Finish)
    requires finish.ReturnsObject? && Finalize(limits, c, finish).status.Completed?
    ensures
      var l := Finalize(limits, c, finish).context.ledger;
      && l == c.ledger.(steps := c.ledger.steps + 2)
      && l.tokensInput <= limits.tokensInput && l.tokensOutput <= limits.tokensOutput
      && l.cost <= limits.cost && l.toolCalls <= limits.maxToolCalls && l.steps <= limits.maxSteps
  {
  }

  lemma CompletedLedger(limits: Limits, inputValid: bool, script: seq<Action>, finish: Finish)
    requires Execute(limits, inputValid, script, finish).status.Completed?
    ensures
      var (after, escaped) := RunScript(limits, HandlerContext(limits), script);
      var l := Execute(limits, inputValid, script, finish).context.ledger;
      && escaped.None? && l == after.ledger.(steps := after.ledger.steps + 2)
      && l.tokensInput <= limits.tokensInput && l.tokensOutput <= limits.tokensOutput
      && l.cost <= limits.cost && l.toolCalls <= limits.maxToolCalls && l.steps <= limits.maxSteps
  {
    CompletedExactlyWithinLimits(limits, inputValid, script, finish);
    var (after, escaped) := RunScript(limits, HandlerContext(limits), script);
    FinalizedLedger(limits, Append(after, "run-handler", StepCompleted), finish);
  }

  /** Every brokered call was charged while the tool budget still held. */
  predicate BrokeredWithin(limits: Limits, c: Context)
  {
    c.brokered <= c.ledger.toolCalls && (c.brokered > 0 ==> c.brokered <= limits.maxToolCalls)
  }

  lemma {:induction false} ScriptStaysBrokered(limits: Limits, c: Context, script: seq<Action>)
    requires BrokeredWithin(limits, c)
    ensures BrokeredWithin(limits, RunScript(limits, c, script).0)
    decreases |script|
  {
    if script != [] {
      var (after, raised) := Apply(limits, c, script[0].call);
      assert BrokeredWithin(limits, after);
      ScriptStaysBrokered(limits, after, script[1..]);
    }
  }

  /** No handler gets more tool and skill calls brokered than its budget grants, even one
      that swallows every refusal or reports negative consumption. */
  lemma BrokeredCallsAreBounded(limits: Limits, inputValid: bool, script: seq<Action>, finish: Finish)
    ensures BrokeredWithin(limits, Execute(limits, inputValid, script, finish).context)
  {
    if inputValid {
      var (c1, r1) := Apply(limits, FRESH_CONTEXT, RecordStep("validate-input", StepCompleted));
      ScriptStaysBrokered(limits, c1.(ledger := c1.ledger.(steps := c1.ledger.steps + 1)), script);
    }
  }

  /** The script never reports a negative amount. */
  predicate Honest(script: seq<Action>)
  {
    forall i | 0 <= i < |script| ::
      match script[i].call
      case ConsumeBudget(u, _) => NonNegative(u)
      case CallLlm(_, u) => NonNegative(u)
      case _ => true
  }

  /** Once a budget is exceeded, an honest handler can do nothing more that counts: the
      breach stays, nothing is brokered and no step is recorded. */
  lemma {:induction false} BreachIsFinal(limits: Limits, c: Context, script: seq<Action>)
    requires Honest(script) && Exceeds(c.ledger, limits)
    ensures var after := RunScript(limits, c, script).0;
            Exceeds(after.ledger, limits) && after.brokered == c.brokered && after.timeline == c.timeline
    decreases |script|
  {
    if script != [] {
      var (after, raised) := Apply(limits, c, script[0].call);
      assert Exceeds(after.ledger, limits) && after.brokered == c.brokered && after.timeline == c.timeline;
      assert forall i | 0 <= i < |script[1..]| :: script[1..][i] == script[i + 1];
      BreachIsFinal(limits, after, script[1..]);
    }
  }

  /** After the first breach of an honest run no brokered call ever happens: the prefix up to
      the breach accounts for every brokered call of the whole script. */
  lemma {:induction false} NothingBrokeredAfterBreach(limits: Limits, c: Context, before: seq<Action>, rest: seq<Action>)
    requires Honest(rest)
    requires RunScript(limits, c, before).1.None? && Exceeds(RunScript(limits, c, before).0.ledger, limits)
    ensures RunScript(limits, c, before + rest).0.brokered == RunScript(limits, c, before).0.brokered
    decreases |before|
  {
    if before == [] {
      assert before + rest == rest;
      BreachIsFinal(limits, c, rest);
    } else {
      assert (before + rest)[1..] == before[1..] + rest;
      NothingBrokeredAfterBreach(limits, Apply(limits, c, before[0].call).0, before[1..], rest);
    }
  }

  /** How many `record_step` calls of the script were refused (and swallowed). */
  function Refused(limits: Limits, c: Context, script: seq<Action>): nat
    decreases |script|
  {
    if script == [] then 0
    else
      var (after, raised) := Apply(limits, c, script[0].call);
      var here := if script[0].call.RecordStep? && raised.Some? then 1 else 0;
      if raised.Some? && !script[0].swallows then here
      else here + Refused(limits, after, script[1..])
  }

  lemma {:induction false} StepsAreAccounted(limits: Limits, c: Context, script: seq<Action>)
    ensures var after := RunScript(limits, c, script).0;
            after.ledger.steps - |after.timeline| ==
            c.ledger.steps - |c.timeline| + Refused(limits, c, script)
    decreases |script|
  {
    if script != [] {
      StepsAreAccounted(limits, Apply(limits, c, script[0].call).0, script[1..]);
    }
  }

  /** The handler reaches call `i`, it records a step, and the step is over budget. */
  predicate RefusedAt(limits: Limits, c: Context, script: seq<Action>, i: nat)
  {
    && i < |script| && script[i].call.RecordStep?
    && var (reached, escaped) := RunScript(limits, c, script[..i]);
       escaped.None? && Exceeds(reached.ledger.(steps := reached.ledger.steps + 1), limits)
  }

  /** No step the handler records is over budget when it is recorded. */
  ghost predicate RecordsWithinBudget(limits: Limits, c: Context, script: seq<Action>)
  {
    forall i: nat :: !RefusedAt(limits, c, script, i)
  }

  lemma RefusedLater(limits: Limits, c: Context, script: seq<Action>, i: nat)
    requires 0 < i < |script|
    ensures
      var (after, raised) := Apply(limits, c, script[0].call);
      RefusedAt(limits, c, script, i) <==>
        (raised.None? || script[0].swallows) && RefusedAt(limits, after, script[1..], i - 1)
  {
    assert script[..i][0] == script[0] && script[..i][1..] == script[1..][..i - 1];
  }

  lemma {:induction false} RefusedExactly(limits: Limits, c: Context, script: seq<Action>)
    ensures Refused(limits, c, script) == 0 <==> RecordsWithinBudget(limits, c, script)
    decreases |script|
  {
    if script != [] {
      var (after, raised) := Apply(limits, c, script[0].call);
      var rest := script[1..];
      RefusedExactly(limits, after, rest);
      assert script[..0] == [];
      assert RefusedAt(limits, c, script, 0) <==> script[0].call.RecordStep? && raised.Some?;
      forall i: nat | 0 < i < |script|
        ensures RefusedAt(limits, c, script, i) <==>
                  (raised.None? || script[0].swallows) && RefusedAt(limits, after, rest, i - 1)
      {
        RefusedLater(limits, c, script, i);
      }
      if raised.None? || script[0].swallows {
        if j: nat :| RefusedAt(limits, after, rest, j) {
          assert RefusedAt(limits, c, script, j + 1);
        }
      }
    }
  }

  /** The context in which the handler of a run with valid input starts. */
  function HandlerContext(limits: Limits): Context
  {
    var c := Apply(limits, FRESH_CONTEXT, RecordStep("validate-input", StepCompleted)).0;
    c.(ledger := c.ledger.(steps := c.ledger.steps + 1))
  }

  /** A completed run's timeline is as long as its ledger says, exactly when the handler
      recorded no step while over budget. */
  lemma TimelineMatchesLedger(limits: Limits, script: seq<Action>, finish: Finish)
    ensures
      var r := Execute(limits, true, script, finish);
      r.status.Completed? ==>
        (|r.context.timeline| == r.context.ledger.steps <==>
         RecordsWithinBudget(limits, HandlerContext(limits), script))
  {
    StepsAreAccounted(limits, HandlerContext(limits), script);
    RefusedExactly(limits, HandlerContext(limits), script);
  }

  lemma {:induction false} HonestWithinIsNeverRefused(limits: Limits, c: Context, script: seq<Action>)
    requires Honest(script) && !Exceeds(RunScript(limits, c, script).0.ledger, limits)
    requires RunScript(limits, c, script).1.None?
    ensures Refused(limits, c, script) == 0
    decreases |script|
  {
    if script != [] {
      var (after, raised) := Apply(limits, c, script[0].call);
      assert forall i | 0 <= i < |script[1..]| :: script[1..][i] == script[i + 1];
      if Exceeds(after.ledger, limits) {
        BreachIsFinal(limits, after, script[1..]);
        assert false;
      }
      HonestWithinIsNeverRefused(limits, after, script[1..]);
    }
  }

  lemma StepsOnlyGrow(limits: Limits, c: Context, finish: Finish)
    requires finish.ReturnsObject? && Finalize(limits, c, finish).status.Completed?
    ensures !Exceeds(c.ledger, limits)
  {
  }

  /** A handler that reports no negative consumption and completes never met a budget
      breach: its timeline has exactly as many steps as its ledger. */
  lemma HonestTimelineMatches(limits: Limits, script: seq<Action>, finish: Finish)
    requires Honest(script)
    ensures var r := Execute(limits, true, script, finish);
            r.status.Completed? ==> |r.context.timeline| == r.context.ledger.steps
  {
    var r := Execute(limits, true, script, finish);
    if r.status.Completed? {
      var (c3, escaped) := RunScript(limits, HandlerContext(limits), script);
      StepsOnlyGrow(limits, Append(c3, "run-handler", StepCompleted), finish);
      HonestWithinIsNeverRefused(limits, HandlerContext(limits), script);
      RefusedExactly(limits, HandlerContext(limits), script);
      TimelineMatchesLedger(limits, script, finish);
    }
  }

  /** Reporting negative consumption undoes a breach: this handler overspends, has a step
      refused, takes the overspending back and completes with a step missing. */
  lemma NegativeConsumptionHidesRefusal()
    ensures
      var limits := Limits(0, 0, 0.0, 0, 10);
      var script := [Action(ConsumeBudget(Usage(1, 0, 0.0), false), true),
                     Action(RecordStep("work", StepCompleted), true),
                     Action(ConsumeBudget(Usage(-1, 0, 0.0), false), true)];
      var r := Execute(limits, true, script, ReturnsObject(true, false));
      r.status.Completed? && |r.context.timeline| != r.context.ledger.steps
  {
    var limits := Limits(0, 0, 0.0, 0, 10);
    var a := Action(ConsumeBudget(Usage(1, 0, 0.0), false), true);
    var b := Action(RecordStep("work", StepCompleted), true);
    var c := Action(ConsumeBudget(Usage(-1, 0, 0.0), false), true);
    var c0 := HandlerContext(limits);
    var c1 := Apply(limits, c0, a.call).0;
    var c2 := Apply(limits, c1, b.call).0;
    var c3 := Apply(limits, c2, c.call).0;
    assert [a, b, c][1..] == [b, c] && [b, c][1..] == [c] && [c][1..] == [];
    assert RunScript(limits, c2, [c]) == RunScript(limits, c3, []) == (c3, None);
    assert RunScript(limits, c1, [b, c]) == (c3, None);
    assert RunScript(limits, c0, [a, b, c]) == (c3, None);
  }

  // -------------------------------------------------------------- the runtime

  class RuntimeContext {
    const limits: Limits
    var ledger: Ledger
    var timeline: seq<TimelineStep>
    var brokered: nat

    constructor (limits: Limits)
      ensures this.limits == limits && Snapshot() == FRESH_CONTEXT
    {
      this.limits := limits;
      ledger, timeline, brokered := Ledger(0, 0, 0.0, 0, 0), [], 0;
    }

    function Snapshot(): Context
      reads this
    {
      Context(ledger, timeline, brokered)
    }

    /** The charge lands even when it breaks the budget, and then raises. */
    method Consume(u: Usage, tool: bool) returns (raised: Option<Raise>)
      modifies this`ledger
      ensures ledger.tokensInput - old(ledger).tokensInput == u.tokensInput
      ensures ledger.tokensOutput - old(ledger).tokensOutput == u.tokensOutput
      ensures ledger.cost - old(ledger).cost == u.cost
      ensures ledger.toolCalls - old(ledger).toolCalls == (if tool then 1 else 0)
      ensures ledger.steps == old(ledger).steps
      ensures raised == Some(BudgetExceeded) <==>
                (ledger.tokensInput > limits.tokensInput || ledger.tokensOutput > limits.tokensOutput ||
                 ledger.cost > limits.cost || ledger.toolCalls > limits.maxToolCalls || ledger.steps > limits.maxSteps)
      ensures raised.Some? ==> raised.value.BudgetExceeded?
    {
      ledger := Charge(ledger, u, tool);
      raised := Checked(ledger, limits);
    }

    method Record(name: string, status: StepStatus) returns (raised: Option<Raise>)
      modifies this
      ensures (Snapshot(), raised) == Apply(limits, old(Snapshot()), RecordStep(name, status))
    {
      ledger := ledger.(steps := ledger.steps + 1);
      raised := Checked(ledger, limits);
      if raised.None? {
        timeline := timeline + [TimelineStep(name, status)];
      }
    }

    method Perform(call: Call) returns (raised: Option<Raise>)
      modifies this
      ensures (Snapshot(), raised) == Apply(limits, old(Snapshot()), call)
    {
      match call
      case ConsumeBudget(u, tool) =>
        raised := Consume(u, tool);
      case RecordStep(name, status) =>
        raised := Record(name, status);
      case CallTool(ok) =>
        raised := BrokerCall(ok);
      case CallSkill(ok) =>
        raised := BrokerCall(ok);
      case CallLlm(ok, u) =>
        if !ok {
          return Some(OtherError);
        }
        raised := Consume(u, false);
    }

    method BrokerCall(ok: bool) returns (raised: Option<Raise>)
      modifies this
      ensures (Snapshot(), raised) == Broker(limits, old(Snapshot()), ok)
    {
      raised := Consume(NO_USAGE, true);
      if raised.None? {
        brokered := brokered + 1;
        raised := if ok then None else Some(OtherError);
      }
    }

    method InvokeHandler(script: seq<Action>, finish: Finish) returns (raised: Option<Raise>)
      modifies this
      ensures
        var (after, escaped) := RunScript(limits, old(Snapshot()), script);
        Snapshot() == after && raised == if escaped.Some? then escaped else HandlerRaises(finish)
    {
      var i := 0;
      while i < |script|
        invariant 0 <= i <= |script|
        invariant RunScript(limits, old(Snapshot()), script) == RunScript(limits, Snapshot(), script[i..])
      {
        assert script[i..][0] == script[i] && script[i..][1..] == script[i + 1..];
        raised := Perform(script[i].call);
        if raised.Some? && !script[i].swallows {
          return;
        }
        i := i + 1;
      }
      raised := HandlerRaises(finish);
    }

    method Stop(r: Raise) returns (result: Result)
      modifies this`timeline
      ensures result == Stopped(old(Snapshot()), r) && Snapshot() == result.context
    {
      match r
      case BudgetExceeded =>
        timeline := timeline + [TimelineStep("budget", StepFailed)];
        result := Result(Interrupted, Snapshot());
      case ValidationError =>
        timeline := timeline + [TimelineStep("validate-output", StepFailed)];
        result := Result(Failed, Snapshot());
      case OtherError =>
        timeline := timeline + [TimelineStep("handler-error", StepFailed)];
        result := Result(Failed, Snapshot());
    }

    /** Validation, handler and guardrails. Everything proved of `Execute` holds of it. */
    method ExecuteAgent(inputValid: bool, script: seq<Action>, finish: Finish) returns (result: Result)
      requires Snapshot() == FRESH_CONTEXT
      modifies this
      ensures result == Execute(limits, inputValid, script, finish)
    {
      if !inputValid {
        result := Stop(ValidationError);
        return;
      }
      var raised := Record("validate-input", StepCompleted);
      if raised.Some? {
        result := Stop(raised.value);
        return;
      }
      ledger := ledger.(steps := ledger.steps + 1);
      if Exceeds(ledger, limits) {
        result := Stop(BudgetExceeded);
        return;
      }
      raised := InvokeHandler(script, finish);
      if raised.Some? {
        timeline := timeline + [TimelineStep("run-handler", StepFailed)];
        result := Stop(raised.value);
        return;
      }
      timeline := timeline + [TimelineStep("run-handler", StepCompleted)];
      raised := Record("handler-completed", StepCompleted);
      if raised.Some? {
        result := Stop(raised.value);
        return;
      }
      if !finish.valid {
        result := Stop(ValidationError);
        return;
      }
      raised := Record("validate-output", StepCompleted);
      if raised.Some? {
        result := Stop(raised.value);
        return;
      }
      if !finish.blocked {
        return Result(Completed, Snapshot());
      }
      raised := Record("guardrail-output", StepFailed);
      if raised.Some? {
        result := Stop(raised.value);
        return;
      }
      result := Result(Blocked, Snapshot());
    }
  }
}
