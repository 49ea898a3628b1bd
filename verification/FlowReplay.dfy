/** Step and run rows, the decision path they record, and deterministic replay. */
module FlowReplay {
  import opened Wrappers
  import opened Documents
  import opened FlowExpressions
  import opened FlowModel

  datatype StepStatus = Running | Completed | Failed | Waiting

  datatype ErrorKind = NoError | NodeFailed | UnsupportedNode | BudgetExceeded | BadOutput | Interrupted

  /** A `flow_steps` row; `id` stands for the unique step id. */
  datatype Step = Step(id: nat, node: string, status: StepStatus, attempt: nat,
                       input: Fields, output: Option<Fields>, error: ErrorKind)

  datatype StopReason =
    | NotStopped | RunCompleted | BindingError | NodeFailure | Unsupported
    | BudgetExhausted | PredicateFailure | RouteMissing

  function OutputOf(s: Step): Fields
  {
    if s.output.Some? then s.output.value else map[]
  }

  function CompletedSteps(steps: seq<Step>): seq<Step>
  {
    if steps == [] then []
    else
      var front := CompletedSteps(steps[..|steps| - 1]);
      var last := steps[|steps| - 1];
      if last.status.Completed? then front + [last] else front
  }

  function Last(path: seq<Step>): Step
    requires path != []
  {
    path[|path| - 1]
  }

  /** `state.nodes` after folding the outputs of `path`: the latest output of each node. */
  function NodesAfter(path: seq<Step>): map<string, Fields>
  {
    if path == [] then map[]
    else NodesAfter(path[..|path| - 1])[Last(path).node := OutputOf(Last(path))]
  }

  function Route(f: Flow, id: string, nodes: map<string, Fields>): Routing
  {
    SelectNext(f.manifest, id, EvalDocument(f.input, nodes))
  }

  /** Where the run goes after `path`. A flow without an entry node routes nowhere. */
  function RouteAfter(f: Flow, path: seq<Step>): Routing
  {
    if path == [] then
      var e := EntryNode(f.manifest);
      if e.Some? then Go(e.value.id) else NoRoute
    else Route(f, Last(path).node, NodesAfter(path))
  }

  /** The rendered input of a node; `None` when a binding fails to render. Bindings of
      map nodes render per item inside the handler, so their step input is empty. */
  function StepInput(f: Flow, node: Node, nodes: map<string, Fields>): Option<Fields>
  {
    if node.kind.MapNode? then Some(map[])
    else
      var r := Render(Object(node.bindings), EvalDocument(f.input, nodes), f.show);
      if r.Some? then Some(r.value.fields) else None
  }

  /** The recorded input of `s` is the one the bindings give in `nodes`. */
  predicate InputAgrees(f: Flow, s: Step, nodes: map<string, Fields>)
  {
    var n := FindNode(f.manifest.nodes, s.node);
    n.Some? && var x := StepInput(f, n.value, nodes); x.Some? && PyEq(Dict(x.value), Dict(s.input))
  }

  /** `s` is the step the flow takes after `path`. */
  predicate Follows(f: Flow, path: seq<Step>, s: Step)
  {
    RouteAfter(f, path) == Go(s.node) && InputAgrees(f, s, NodesAfter(path))
  }

  /** A decision path: starts at the entry node, each input is the re-rendered one and
      each successor is the routed one. */
  predicate LegalPath(f: Flow, path: seq<Step>)
  {
    path == [] ||
    (LegalPath(f, path[..|path| - 1]) && Follows(f, path[..|path| - 1], Last(path)))
  }

  /** `path` stops where the run record says: at the recorded cursor, or at a routing
      failure on the recorded cursor. */
  predicate StopsAt(f: Flow, path: seq<Step>, stop: StopReason, cursor: Option<string>)
  {
    match RouteAfter(f, path)
    case Halt => cursor.None?
    case Go(t) => cursor == Some(t)
    case _ => path != [] && (stop.PredicateFailure? || stop.RouteMissing?) &&
              cursor == Some(Last(path).node)
  }

  datatype Divergence =
    | NoEntry | TerminalCursor(at: nat) | WrongNode(at: nat) | Unrendered(at: nat)
    | InputDiffers(at: nat) | RoutingFailed(at: nat) | FinalCursor

  datatype Report = Report(recorded: seq<string>, replayed: seq<string>, divergences: seq<Divergence>)
  {
    predicate Deterministic() { divergences == [] }
  }

  function NodeIds(path: seq<Step>): seq<string>
  {
    seq(|path|, i requires 0 <= i < |path| => path[i].node)
  }

  lemma RouteAfterIsDeclared(f: Flow, path: seq<Step>)
    requires ValidManifest(f.manifest)
    ensures RouteAfter(f, path).Go? ==> FindNode(f.manifest.nodes, RouteAfter(f, path).target).Some?
  {
    if path == [] {
      EntryNodeIsDeclared(f.manifest);
    } else {
      SelectNextIsDeclared(f.manifest, Last(path).node, EvalDocument(f.input, NodesAfter(path)));
    }
  }

  lemma LegalPathExtends(f: Flow, path: seq<Step>, s: Step)
    ensures LegalPath(f, path + [s]) <==> LegalPath(f, path) && Follows(f, path, s)
  {
    assert (path + [s])[..|path|] == path;
  }

  lemma {:induction false} LegalPrefix(f: Flow, path: seq<Step>, n: nat)
    requires n <= |path| && LegalPath(f, path)
    ensures LegalPath(f, path[..n])
    decreases |path|
  {
    if n < |path| {
      LegalPrefix(f, path[..|path| - 1], n);
      assert path[..|path| - 1][..n] == path[..n];
    } else {
      assert path[..n] == path;
    }
  }

  /** One more recorded step keeps a path legal exactly when it follows. */
  lemma LegalStepAt(f: Flow, path: seq<Step>, i: nat)
    requires i < |path|
    ensures LegalPath(f, path[..i + 1]) <==> LegalPath(f, path[..i]) && Follows(f, path[..i], path[i])
    ensures LegalPath(f, path) ==> LegalPath(f, path[..i + 1])
  {
    assert path[..i + 1] == path[..i] + [path[i]];
    LegalPathExtends(f, path[..i], path[i]);
    if LegalPath(f, path) {
      LegalPrefix(f, path, i + 1);
    }
  }

  /** What one more recorded step adds to the folded nodes, the route and the trace. */
  lemma FoldStepAt(f: Flow, path: seq<Step>, i: nat)
    requires i < |path|
    ensures NodesAfter(path[..i + 1]) == NodesAfter(path[..i])[path[i].node := OutputOf(path[i])]
    ensures RouteAfter(f, path[..i + 1]) == Route(f, path[i].node, NodesAfter(path[..i + 1]))
    ensures NodeIds(path[..i + 1]) == NodeIds(path[..i]) + [path[i].node]
  {
    assert path[..i + 1][..i] == path[..i];
  }

  /** The divergence replay reports for the step at position `at`, given the derived cursor. */
  function CheckStep(f: Flow, nodes: map<string, Fields>, cursor: Option<string>, s: Step, at: nat)
    : (d: Option<Divergence>)
    requires cursor.Some? ==> FindNode(f.manifest.nodes, cursor.value).Some?
    ensures d.None? <==> cursor == Some(s.node) && InputAgrees(f, s, nodes)
    ensures d == Some(InputDiffers(at)) ==> cursor == Some(s.node)
    ensures d.Some? && !d.value.InputDiffers? ==> d.value != FinalCursor && !d.value.RoutingFailed?
  {
    if cursor.None? then Some(TerminalCursor(at))
    else if cursor.value != s.node then Some(WrongNode(at))
    else
      var rendered := StepInput(f, FindNode(f.manifest.nodes, s.node).value, nodes);
      if rendered.None? then Some(Unrendered(at))
      else if !PyEq(Dict(rendered.value), Dict(s.input)) then Some(InputDiffers(at))
      else None
  }

  /** How the walk over the recorded steps ended: past the last step, at a divergence that
      stops it, or at the routing failure the run record shows. */
  datatype WalkEnd = Walked | Stopped | FailureReproduced

  /** What the walk has derived so far. */
  datatype Trail = Trail(cursor: Option<string>, nodes: map<string, Fields>,
                         replayed: seq<string>, divergences: seq<Divergence>)

  /** The trail of the recorded steps in `path`. */
  ghost predicate Walking(f: Flow, path: seq<Step>, t: Trail)
  {
    && t.nodes == NodesAfter(path)
    && RouteAfter(f, path) == (if t.cursor.Some? then Go(t.cursor.value) else Halt)
    && Traced(f, path, t)
  }

  /** The walk has found no divergence exactly when the steps form a decision path. */
  ghost predicate Traced(f: Flow, path: seq<Step>, t: Trail)
  {
    (t.divergences == [] <==> LegalPath(f, path)) && (t.divergences == [] ==> t.replayed == NodeIds(path))
  }

  /** A routing failure in the middle of the trace, or one the record does not show,
      is never a decision path. */
  lemma NoLegalPathThrough(f: Flow, path: seq<Step>, i: nat, stop: StopReason, cursor: Option<string>)
    requires i < |path|
    requires var r := RouteAfter(f, path[..i + 1]); r.PredicateError? || r.NoRoute?
    requires !(i == |path| - 1 && (stop.PredicateFailure? || stop.RouteMissing?) &&
               Some(path[i].node) == cursor)
    ensures !(LegalPath(f, path) && StopsAt(f, path, stop, cursor))
  {
    if i + 1 < |path| {
      LegalStepAt(f, path, i + 1);
    } else {
      assert path[..i + 1] == path;
    }
  }

  /** Compares one recorded step with what the flow derives. */
  method CheckRecorded(f: Flow, recorded: seq<Step>, i: nat, t: Trail) returns (stopped: bool, next: Trail)
    requires ValidManifest(f.manifest) && i < |recorded| && Walking(f, recorded[..i], t)
    ensures stopped ==> next.divergences != [] && !LegalPath(f, recorded)
    ensures !stopped ==> Traced(f, recorded[..i + 1], next) && next.nodes == t.nodes
  {
    var step := recorded[i];
    LegalStepAt(f, recorded, i);
    FoldStepAt(f, recorded, i);
    RouteAfterIsDeclared(f, recorded[..i]);
    var found := CheckStep(f, t.nodes, t.cursor, step, i);
    next := t.(replayed := if t.cursor.Some? then t.replayed + [t.cursor.value] else t.replayed,
               divergences := if found.Some? then t.divergences + [found.value] else t.divergences);
    stopped := found.Some? && !found.value.InputDiffers?;
  }

  /** One iteration of replay: checks a recorded step, folds its output, and re-derives the
      route out of it. */
  method WalkStep(f: Flow, recorded: seq<Step>, i: nat, t: Trail, stop: StopReason, finalCursor: Option<string>)
    returns (end: WalkEnd, next: Trail)
    requires ValidManifest(f.manifest) && i < |recorded| && Walking(f, recorded[..i], t)
    ensures end.Walked? ==> Walking(f, recorded[..i + 1], next)
    ensures end.Stopped? ==>
              next.divergences != [] && !(LegalPath(f, recorded) && StopsAt(f, recorded, stop, finalCursor))
    ensures end.FailureReproduced? ==>
              && Traced(f, recorded, next) && next.nodes == NodesAfter(recorded)
              && StopsAt(f, recorded, stop, finalCursor)
  {
    var stopped;
    stopped, next := CheckRecorded(f, recorded, i, t);
    if stopped {
      return Stopped, next;
    }
    var step := recorded[i];
    FoldStepAt(f, recorded, i);
    next := next.(nodes := next.nodes[step.node := OutputOf(step)]);
    var route := Route(f, step.node, next.nodes);
    if route.PredicateError? || route.NoRoute? {
      if i == |recorded| - 1 && (stop.PredicateFailure? || stop.RouteMissing?) &&
         Some(step.node) == finalCursor {
        assert recorded[..i + 1] == recorded;
        return FailureReproduced, next;
      }
      NoLegalPathThrough(f, recorded, i, stop, finalCursor);
      return Stopped, next.(divergences := next.divergences + [RoutingFailed(i)]);
    }
    next := next.(cursor := if route.Go? then Some(route.target) else None);
    end := Walked;
  }

  /** The loop of replay: folds recorded outputs and re-derives inputs and routes. */
  method WalkTrace(f: Flow, recorded: seq<Step>, entry: string, stop: StopReason, finalCursor: Option<string>)
    returns (end: WalkEnd, t: Trail)
    requires ValidManifest(f.manifest) && RouteAfter(f, []) == Go(entry)
    ensures end.Walked? ==> Walking(f, recorded, t)
    ensures end.Stopped? ==>
              t.divergences != [] && !(LegalPath(f, recorded) && StopsAt(f, recorded, stop, finalCursor))
    ensures end.FailureReproduced? ==>
              && Traced(f, recorded, t) && t.nodes == NodesAfter(recorded)
              && StopsAt(f, recorded, stop, finalCursor)
  {
    end, t := Walked, Trail(Some(entry), map[], [], []);
    assert recorded[..0] == [];
    for i := 0 to |recorded|
      invariant end.Walked? && Walking(f, recorded[..i], t)
    {
      end, t := WalkStep(f, recorded, i, t, stop, finalCursor);
      if !end.Walked? {
        return;
      }
    }
    assert recorded[..|recorded|] == recorded;
  }

  /** Re-derives the decision path of a run from its rows. The verdict is exact: it is
      `deterministic` if and only if the completed steps form a decision path of the flow
      that stops where the record says. `rebuilt` is the nodes document replay folds up. */
  method ReplayDecisionPath(f: Flow, steps: seq<Step>, stop: StopReason, finalCursor: Option<string>)
    returns (report: Report, ghost rebuilt: map<string, Fields>)
    requires ValidManifest(f.manifest)
    ensures report.Deterministic() <==>
              LegalPath(f, CompletedSteps(steps)) && StopsAt(f, CompletedSteps(steps), stop, finalCursor)
    ensures report.recorded == NodeIds(CompletedSteps(steps))
    ensures report.Deterministic() ==> report.replayed == report.recorded
    ensures report.Deterministic() ==> rebuilt == NodesAfter(CompletedSteps(steps))
  {
    var recorded := CompletedSteps(steps);
    var entry := EntryNode(f.manifest);
    if entry.None? {
      if recorded != [] {
        LegalStepAt(f, recorded, 0);
      }
      return Report(NodeIds(recorded), [], [NoEntry]), map[];
    }
    var end, t := WalkTrace(f, recorded, entry.value.id, stop, finalCursor);
    var divergences := t.divergences;
    if end.Walked? && divergences == [] && t.cursor != finalCursor {
      divergences := [FinalCursor];
    }
    report := Report(NodeIds(recorded), t.replayed, divergences);
    rebuilt := t.nodes;
  }
}
