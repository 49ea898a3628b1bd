/** The durable rows of one run, and what every committed write keeps true of them. */
module FlowRuns {
  import opened Wrappers
  import opened Documents
  import opened FlowModel
  import opened FlowReplay

  datatype RunStatus = Pending | Active | WaitingHuman | Succeeded | FailedRun

  /** The checkpoint: cursor, node outputs and accumulated metrics. */
  datatype State = State(cursor: Option<string>, nodes: map<string, Fields>, tokens: real, cost: real)

  /** One `flow_runs` row with its `flow_steps`, and the ids of the steps whose
      `run.step.completed` event has been appended. */
  datatype Db = Db(status: RunStatus, stop: StopReason, state: State, steps: seq<Step>, routed: set<nat>)

  predicate Terminal(db: Db) { db.status.Succeeded? || db.status.FailedRun? }

  function PathOf(db: Db): seq<Step> { CompletedSteps(db.steps) }

  // ------------------------------------------------------- committed writes

  function OpenStep(db: Db, node: string, attempt: nat, input: Fields): Db
  {
    db.(steps := db.steps + [Step(|db.steps|, node, Running, attempt, input, None, NoError)])
  }

  function CloseStep(db: Db, status: StepStatus, output: Option<Fields>, error: ErrorKind): Db
    requires db.steps != []
  {
    var last := Last(db.steps);
    db.(steps := db.steps[|db.steps| - 1 := last.(status := status, output := output, error := error)])
  }

  function Failing(db: Db, state: State, reason: StopReason): Db
  {
    db.(status := FailedRun, stop := reason, state := state)
  }

  /** Resume marks the attempts a crash left running. */
  function MarkInterrupted(steps: seq<Step>): seq<Step>
  {
    seq(|steps|, i requires 0 <= i < |steps| =>
      if steps[i].status.Running?
      then steps[i].(status := Failed, output := None, error := Interrupted) else steps[i])
  }

  function CursorOf(r: Routing): Option<string>
    requires r.Go? || r.Halt?
  {
    if r.Go? then Some(r.target) else None
  }

  // ------------------------------------------------------- what the rows mean

  /** Holds of every row set the engine ever commits. */
  predicate WellFormed(f: Flow, db: Db)
  {
    && ValidManifest(f.manifest) && EntryNode(f.manifest).Some? && JsonFields(f.input)
    && (db.state.cursor.Some? ==> FindNode(f.manifest.nodes, db.state.cursor.value).Some?)
    && (forall id | id in db.state.nodes :: JsonFields(db.state.nodes[id]))
    && (forall id | id in db.routed :: id < |db.steps|)
    && forall i | 0 <= i < |db.steps| ::
         && db.steps[i].id == i
         && (db.steps[i].status.Completed? ==>
               db.steps[i].output.Some? && JsonFields(db.steps[i].output.value))
  }

  /** The checkpoint is exactly what the completed steps give. */
  predicate Settled(f: Flow, db: Db)
  {
    var path := PathOf(db);
    && LegalPath(f, path)
    && db.state.nodes == NodesAfter(path)
    && var r := RouteAfter(f, path); (r.Go? || r.Halt?) && db.state.cursor == CursorOf(r)
  }

  /** A crash window: the last completed step is committed but not yet checkpointed. */
  predicate InWindow(f: Flow, db: Db)
  {
    var path := PathOf(db);
    && !Terminal(db) && path != [] && LegalPath(f, path)
    && db.state.cursor == Some(Last(path).node)
    && db.state.nodes == NodesAfter(path[..|path| - 1])
    && Last(path).id !in db.routed
  }

  /** The run failed at a routing decision. */
  predicate RouteFailed(f: Flow, db: Db)
  {
    var path := PathOf(db);
    && db.status.FailedRun? && path != [] && LegalPath(f, path)
    && db.state.cursor == Some(Last(path).node)
    && db.state.nodes == NodesAfter(path)
    && var r := RouteAfter(f, path);
       (r.PredicateError? && db.stop.PredicateFailure?) || (r.NoRoute? && db.stop.RouteMissing?)
  }

  predicate Faithful(f: Flow, db: Db)
  {
    WellFormed(f, db) && (Settled(f, db) || InWindow(f, db) || RouteFailed(f, db))
  }

  /** The completed steps are no decision path, or lead somewhere the cursor is not. */
  predicate Diverged(f: Flow, db: Db)
  {
    var path := PathOf(db);
    && WellFormed(f, db)
    && (LegalPath(f, path) ==>
          && db.state.nodes == NodesAfter(path)
          && var r := RouteAfter(f, path); (r.Go? || r.Halt?) && db.state.cursor != CursorOf(r))
  }

  /** What `replay_run` reports about the rows of a run. */
  predicate Replays(f: Flow, db: Db)
  {
    LegalPath(f, PathOf(db)) && StopsAt(f, PathOf(db), db.stop, db.state.cursor)
  }

  /** A terminal run with faithful rows replays, and replay rebuilds its checkpoint. */
  lemma FaithfulReplays(f: Flow, db: Db)
    requires Faithful(f, db) && Terminal(db)
    ensures Replays(f, db) && db.state.nodes == NodesAfter(PathOf(db))
  {
  }

  lemma DivergedNeverReplays(f: Flow, db: Db)
    requires Diverged(f, db)
    ensures !Replays(f, db)
  {
  }

  /** The two standings of a run: its rows are faithful, or they have diverged. */
  predicate Standing(faithful: bool, f: Flow, db: Db)
  {
    if faithful then Faithful(f, db) else Diverged(f, db)
  }

  /** Between activations: the checkpoint is settled, or the run has diverged. */
  predicate Routable(faithful: bool, f: Flow, db: Db)
  {
    WellFormed(f, db) && if faithful then Settled(f, db) else Diverged(f, db)
  }

  /** The standing depends only on the completed steps and the checkpoint. */
  lemma SamePathSameStanding(faithful: bool, f: Flow, db: Db, db': Db)
    requires Routable(faithful, f, db) && WellFormed(f, db')
    requires PathOf(db') == PathOf(db)
    requires db'.state.cursor == db.state.cursor && db'.state.nodes == db.state.nodes
    ensures Routable(faithful, f, db') && Standing(faithful, f, db')
  {
  }

  // ------------------------------------------------------- effect on the path

  lemma CompletedAppend(steps: seq<Step>, row: Step)
    ensures CompletedSteps(steps + [row]) ==
            if row.status.Completed? then CompletedSteps(steps) + [row] else CompletedSteps(steps)
  {
    assert (steps + [row])[..|steps|] == steps;
  }

  lemma CompletedReplaceLast(steps: seq<Step>, row: Step)
    requires steps != [] && !Last(steps).status.Completed?
    ensures CompletedSteps(steps[|steps| - 1 := row]) ==
            if row.status.Completed? then CompletedSteps(steps) + [row] else CompletedSteps(steps)
  {
    var updated := steps[|steps| - 1 := row];
    assert updated[..|steps| - 1] == steps[..|steps| - 1];
  }

  lemma {:induction false} CompletedInterrupted(steps: seq<Step>)
    ensures CompletedSteps(MarkInterrupted(steps)) == CompletedSteps(steps)
  {
    if steps != [] {
      var n := |steps| - 1;
      CompletedInterrupted(steps[..n]);
      assert MarkInterrupted(steps)[..n] == MarkInterrupted(steps[..n]);
    }
  }

  /** Every completed step is a row of the table, and its id is its position. */
  lemma {:induction false} CompletedAreRows(steps: seq<Step>)
    ensures forall s | s in CompletedSteps(steps) :: s in steps && s.status.Completed?
  {
    if steps != [] {
      CompletedAreRows(steps[..|steps| - 1]);
    }
  }

  /** Opening an attempt, or closing one that did not complete, leaves the path alone. */
  lemma OpenKeepsPath(f: Flow, db: Db, node: string, attempt: nat, input: Fields)
    requires WellFormed(f, db)
    ensures WellFormed(f, OpenStep(db, node, attempt, input))
    ensures PathOf(OpenStep(db, node, attempt, input)) == PathOf(db)
  {
    CompletedAppend(db.steps, Step(|db.steps|, node, Running, attempt, input, None, NoError));
  }

  lemma CloseKeepsPath(f: Flow, db: Db, status: StepStatus, error: ErrorKind)
    requires WellFormed(f, db) && db.steps != [] && !Last(db.steps).status.Completed?
    requires !status.Completed?
    ensures forall o :: WellFormed(f, CloseStep(db, status, o, error))
    ensures forall o :: PathOf(CloseStep(db, status, o, error)) == PathOf(db)
  {
    forall o: Option<Fields>
      ensures PathOf(CloseStep(db, status, o, error)) == PathOf(db)
      ensures WellFormed(f, CloseStep(db, status, o, error))
    {
      CompletedReplaceLast(db.steps, Last(db.steps).(status := status, output := o, error := error));
    }
  }

  /** An attempt at the cursor, ready to complete: the last row is running, for the cursor
      node, and its recorded input is the rendered one. */
  predicate Ready(f: Flow, db: Db, node: Node)
  {
    && WellFormed(f, db) && !Terminal(db)
    && FindNode(f.manifest.nodes, node.id) == Some(node)
    && db.state.cursor == Some(node.id)
    && db.steps != []
    && var row := Last(db.steps);
       row.status.Running? && row.node == node.id && row.id !in db.routed &&
       StepInput(f, node, db.state.nodes) == Some(row.input)
  }

  /** The last completed step is committed and not yet folded into the checkpoint. */
  predicate Unfolded(faithful: bool, f: Flow, db: Db)
  {
    var path := PathOf(db);
    && WellFormed(f, db) && !Terminal(db)
    && path != [] && Last(path).id !in db.routed
    && db.state.cursor == Some(Last(path).node)
    && if faithful then InWindow(f, db) else !LegalPath(f, path)
  }

  lemma CompleteExtendsPath(f: Flow, db: Db, node: Node, output: Fields)
    requires Ready(f, db, node) && JsonFields(output)
    ensures
      var after := CloseStep(db, Completed, Some(output), NoError);
      && WellFormed(f, after) && PathOf(after) == PathOf(db) + [Last(after.steps)]
      && (LegalPath(f, PathOf(after)) <==> LegalPath(f, PathOf(db)) && Follows(f, PathOf(db), Last(after.steps)))
  {
    var row := Last(db.steps).(status := Completed, output := Some(output), error := NoError);
    CompletedReplaceLast(db.steps, row);
    LegalPathExtends(f, PathOf(db), row);
  }

  /** Completing the attempt extends the decision path and opens the crash window; on a
      diverged run it makes the divergence permanent. */
  lemma CompleteOpensWindow(f: Flow, db: Db, node: Node, output: Fields)
    requires Ready(f, db, node) && JsonFields(output)
    ensures
      var after := CloseStep(db, Completed, Some(output), NoError);
      && WellFormed(f, after)
      && PathOf(after) == PathOf(db) + [Last(after.steps)]
      && (Settled(f, db) ==> Unfolded(true, f, after))
      && (Diverged(f, db) ==> Unfolded(false, f, after))
  {
    CompleteExtendsPath(f, db, node, output);
    var row := Last(CloseStep(db, Completed, Some(output), NoError).steps);
    assert (PathOf(db) + [row])[..|PathOf(db)|] == PathOf(db);
  }

  /** The checkpoint that closes the window. */
  function Checkpointed(state: State, node: string, output: Fields, next: Option<string>): State
  {
    state.(nodes := state.nodes[node := output], cursor := next)
  }

  lemma WindowFoldsLast(f: Flow, db: Db)
    requires WellFormed(f, db) && InWindow(f, db)
    ensures
      var last := Last(PathOf(db));
      var nodes := db.state.nodes[last.node := OutputOf(last)];
      && nodes == NodesAfter(PathOf(db))
      && RouteAfter(f, PathOf(db)) == Route(f, last.node, nodes)
  {
  }

  lemma LastOutputIsJson(f: Flow, db: Db)
    requires WellFormed(f, db) && PathOf(db) != []
    ensures JsonFields(OutputOf(Last(PathOf(db))))
  {
    CompletedAreRows(db.steps);
    assert Last(PathOf(db)) in PathOf(db);
  }

  /** Routing succeeded: the checkpoint settles the run. */
  lemma CheckpointSettles(faithful: bool, f: Flow, db: Db, state: State)
    requires Unfolded(faithful, f, db)
    requires var last := Last(PathOf(db));
             && state.nodes == db.state.nodes[last.node := OutputOf(last)]
             && var r := Route(f, last.node, state.nodes);
                (r.Go? || r.Halt?) && state.cursor == CursorOf(r)
    ensures Routable(faithful, f, db.(state := state))
  {
    LastOutputIsJson(f, db);
    SelectNextIsDeclared(f.manifest, Last(PathOf(db)).node, EvalDocument(f.input, state.nodes));
    if faithful {
      WindowFoldsLast(f, db);
    }
  }

  /** Routing failed: the run fails at this very decision. */
  lemma FailureSettles(faithful: bool, f: Flow, db: Db, state: State, reason: StopReason)
    requires Unfolded(faithful, f, db)
    requires var last := Last(PathOf(db));
             && state.cursor == db.state.cursor
             && state.nodes == db.state.nodes[last.node := OutputOf(last)]
             && var r := Route(f, last.node, state.nodes);
                (r.PredicateError? && reason.PredicateFailure?) || (r.NoRoute? && reason.RouteMissing?)
    ensures Standing(faithful, f, Failing(db, state, reason))
  {
    LastOutputIsJson(f, db);
    if faithful {
      WindowFoldsLast(f, db);
    }
  }

  // ------------------------------------------------------- crash recovery

  /** The latest completed step of a node. */
  function LatestAt(path: seq<Step>, id: string): Option<Step>
  {
    if path == [] then None
    else if Last(path).node == id then Some(Last(path))
    else LatestAt(path[..|path| - 1], id)
  }

  lemma {:induction false} LatestIsFolded(path: seq<Step>, id: string)
    ensures LatestAt(path, id).Some? ==>
              && LatestAt(path, id).value in path
              && LatestAt(path, id).value.node == id
              && id in NodesAfter(path)
              && NodesAfter(path)[id] == OutputOf(LatestAt(path, id).value)
  {
    if path != [] && Last(path).node != id {
      LatestIsFolded(path[..|path| - 1], id);
    }
  }

  /** The step resume takes for a crash window: the cursor node's latest completed step,
      when its completion event is missing. */
  function Unrouted(db: Db): Option<Step>
  {
    if db.state.cursor.None? then None
    else
      var latest := LatestAt(PathOf(db), db.state.cursor.value);
      if latest.Some? && latest.value.id !in db.routed then latest else None
  }

  /** Where resume re-routes the run after folding `s` back in. */
  function Rerouted(f: Flow, db: Db, s: Step): Routing
  {
    Route(f, s.node, db.state.nodes[s.node := OutputOf(s)])
  }

  /** Resume would take a step that is already checkpointed for a crash window, and move the
      cursor past a visit the run still owes. It can be read off the rows beforehand: the
      cursor node's latest completed step has no completion event although it is not the
      run's last completed step, and routing from it leads away. */
  predicate SkipsVisit(f: Flow, db: Db)
  {
    var u := Unrouted(db);
    u.Some? && u.value.id != Last(PathOf(db)).id &&
    var r := Rerouted(f, db, u.value); (r.Go? || r.Halt?) && CursorOf(r) != db.state.cursor
  }

  lemma UnroutedIsStep(f: Flow, db: Db)
    requires WellFormed(f, db) && Unrouted(db).Some?
    ensures
      var u := Unrouted(db).value;
      && PathOf(db) != [] && db.state.cursor == Some(u.node) && u in PathOf(db)
      && u.node in NodesAfter(PathOf(db)) && NodesAfter(PathOf(db))[u.node] == OutputOf(u)
      && JsonFields(OutputOf(u)) && u.id < |db.steps|
      && (u.id == Last(PathOf(db)).id ==> u == Last(PathOf(db)))
  {
    var path := PathOf(db);
    LatestIsFolded(path, db.state.cursor.value);
    CompletedAreRows(db.steps);
    assert Last(path) in path;
    var u := Unrouted(db).value;
    assert u in db.steps && Last(path) in db.steps;
    assert db.steps[u.id] == u && db.steps[Last(path).id] == Last(path);
  }

  /** Folding the unrouted step back keeps a live run faithful, unless it skips a visit. */
  lemma ReconcileStaysFaithful(f: Flow, db: Db)
    requires Faithful(f, db) && !Terminal(db) && Unrouted(db).Some? && !SkipsVisit(f, db)
    ensures
      var u := Unrouted(db).value;
      var r := Rerouted(f, db, u);
      && (r.Go? || r.Halt? ==>
            Faithful(f, db.(state := Checkpointed(db.state, u.node, OutputOf(u), CursorOf(r)))) &&
            Settled(f, db.(state := Checkpointed(db.state, u.node, OutputOf(u), CursorOf(r)))))
      && (r.PredicateError? ==>
            Faithful(f, Failing(db, Checkpointed(db.state, u.node, OutputOf(u), db.state.cursor), PredicateFailure)))
      && (r.NoRoute? ==>
            Faithful(f, Failing(db, Checkpointed(db.state, u.node, OutputOf(u), db.state.cursor), RouteMissing)))
  {
    UnroutedIsStep(f, db);
    var u := Unrouted(db).value;
    var r := Rerouted(f, db, u);
    if InWindow(f, db) {
      assert u == Last(PathOf(db));
      WindowFoldsLast(f, db);
      if r.Go? || r.Halt? {
        CheckpointSettles(true, f, db, Checkpointed(db.state, u.node, OutputOf(u), CursorOf(r)));
      } else {
        FailureSettles(true, f, db, Checkpointed(db.state, u.node, OutputOf(u), db.state.cursor),
                       if r.PredicateError? then PredicateFailure else RouteMissing);
      }
    } else {
      assert db.state.nodes[u.node := OutputOf(u)] == db.state.nodes;
    }
  }

  /** Resume moves the cursor of a faithful live run off its decision path exactly when it
      skips a visit: the rows are then diverged. */
  lemma SkippedVisitDiverges(f: Flow, db: Db)
    requires Faithful(f, db) && !Terminal(db) && SkipsVisit(f, db)
    ensures
      var u := Unrouted(db).value;
      var r := Rerouted(f, db, u);
      (r.Go? || r.Halt?) &&
      Diverged(f, db.(state := Checkpointed(db.state, u.node, OutputOf(u), CursorOf(r))))
  {
    UnroutedIsStep(f, db);
    var u := Unrouted(db).value;
    assert db.state.nodes[u.node := OutputOf(u)] == db.state.nodes;
    SelectNextIsDeclared(f.manifest, u.node, EvalDocument(f.input, db.state.nodes));
  }

  /** Whether a resumed run is on its decision path once its crash window is reconciled. A
      faithful run is unless it skips a visit; a diverged one only if its steps are still a
      decision path and re-routing happens to lead back to where they lead. */
  predicate Recovers(f: Flow, db: Db)
  {
    if Faithful(f, db) then !SkipsVisit(f, db) else FindsPath(f, db)
  }

  predicate FindsPath(f: Flow, db: Db)
  {
    var u, on := Unrouted(db), RouteAfter(f, PathOf(db));
    && LegalPath(f, PathOf(db)) && u.Some? && (on.Go? || on.Halt?)
    && var r := Rerouted(f, db, u.value); (r.Go? || r.Halt?) && CursorOf(r) == CursorOf(on)
  }

  /** The rows agree on everything recovery and replay read. */
  predicate SameRows(db: Db, db': Db)
  {
    PathOf(db') == PathOf(db) && db' == db.(steps := db'.steps)
  }

  lemma SameRowsSameFaith(f: Flow, db: Db, db': Db)
    requires SameRows(db, db') && WellFormed(f, db) && WellFormed(f, db')
    ensures Faithful(f, db') <==> Faithful(f, db)
    ensures Diverged(f, db') <==> Diverged(f, db)
  {
  }

  lemma SameRowsSameRecovery(f: Flow, db: Db, db': Db)
    requires SameRows(db, db') && WellFormed(f, db) && WellFormed(f, db')
    ensures SkipsVisit(f, db') <==> SkipsVisit(f, db)
    ensures FindsPath(f, db') <==> FindsPath(f, db)
    ensures Recovers(f, db') <==> Recovers(f, db)
  {
    SameRowsSameFaith(f, db, db');
    assert Unrouted(db') == Unrouted(db);
  }

  /** On a diverged run whose steps are a decision path, the checkpoint already has every
      output, so reconciling only moves the cursor. */
  lemma ReconcileKeepsOutputs(f: Flow, db: Db)
    requires Diverged(f, db) && Unrouted(db).Some?
    ensures var u := Unrouted(db).value;
            LegalPath(f, PathOf(db)) ==> db.state.nodes[u.node := OutputOf(u)] == db.state.nodes
  {
    UnroutedIsStep(f, db);
  }

  /** The checkpoint resume writes for an unrouted step. */
  lemma ReconcileDiverged(f: Flow, db: Db)
    requires Diverged(f, db) && Unrouted(db).Some?
    ensures
      var u := Unrouted(db).value;
      var r := Rerouted(f, db, u);
      && (r.Go? || r.Halt? ==>
            Routable(FindsPath(f, db), f, db.(state := Checkpointed(db.state, u.node, OutputOf(u), CursorOf(r)))))
      && (!(r.Go? || r.Halt?) ==> !FindsPath(f, db) && forall reason ::
            Diverged(f, Failing(db, Checkpointed(db.state, u.node, OutputOf(u), db.state.cursor), reason)))
  {
    UnroutedIsStep(f, db);
    ReconcileKeepsOutputs(f, db);
    var u := Unrouted(db).value;
    SelectNextIsDeclared(f.manifest, u.node, EvalDocument(f.input, db.state.nodes[u.node := OutputOf(u)]));
  }

  /** Every completed step of the path has its completion event. */
  predicate Announced(path: seq<Step>, routed: set<nat>)
  {
    forall i | 0 <= i < |path| :: path[i].id in routed
  }

  /** Every one but perhaps the last. */
  predicate AnnouncedButLast(path: seq<Step>, routed: set<nat>)
  {
    forall i | 0 <= i < |path| - 1 :: path[i].id in routed
  }

  /** A run that lost at most the event of its last completed step recovers. */
  lemma AnnouncedRecovers(f: Flow, db: Db)
    requires Faithful(f, db) && AnnouncedButLast(PathOf(db), db.routed)
    ensures Recovers(f, db)
  {
    if Unrouted(db).Some? {
      UnroutedIsStep(f, db);
      var path, u := PathOf(db), Unrouted(db).value;
      var i :| 0 <= i < |path| && path[i] == u;
      assert i == |path| - 1;
    }
  }
}
