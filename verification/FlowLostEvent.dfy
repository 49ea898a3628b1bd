/** A crash that resume does not recover from: a run that loses one completion event. */
module FlowLostEvent {
  import opened Wrappers
  import opened Documents
  import opened FlowExpressions
  import opened FlowModel
  import opened FlowReplay
  import opened FlowRuns

  function ToolNode(id: string): Node { Node(id, Tool, map[], None) }

  /** in -> test -> fix -> test while the guard holds, else merge. */
  function Nodes(): seq<Node> { [ToolNode("in"), ToolNode("test"), ToolNode("fix"), ToolNode("merge")] }

  function Again(): Edge { Edge("fix", "test", When(Literal(Bool(true)))) }

  function Edges(): seq<Edge>
  {
    [Edge("in", "test", Unguarded), Edge("test", "fix", Unguarded), Again(),
     Edge("fix", "merge", Unguarded)]
  }

  function FixLoop(show: Value -> string): Flow
  {
    Flow(Manifest(Nodes(), Edges(), RetryPolicy(1, Exponential, 2.0)), map[], show)
  }

  lemma Leaving()
    ensures EdgesFrom(Edges(), "in") == [Edges()[0]]
    ensures EdgesFrom(Edges(), "test") == [Edges()[1]]
    ensures EdgesFrom(Edges(), "fix") == [Again(), Edges()[3]]
  {
    var es := Edges();
    assert es[1..] == [es[1], es[2], es[3]];
    assert es[1..][1..] == [es[2], es[3]];
    assert es[1..][1..][1..] == [es[3]];
    assert es[1..][1..][1..][1..] == [];
  }

  lemma Declared()
    ensures FindNode(Nodes(), "in") == Some(ToolNode("in"))
    ensures FindNode(Nodes(), "test") == Some(ToolNode("test"))
    ensures FindNode(Nodes(), "fix") == Some(ToolNode("fix"))
    ensures FindNode(Nodes(), "merge") == Some(ToolNode("merge"))
  {
    var ns := Nodes();
    assert ns[1..] == [ns[1], ns[2], ns[3]];
    assert ns[1..][1..] == [ns[2], ns[3]];
    assert ns[1..][1..][1..] == [ns[3]];
  }

  lemma Entry(show: Value -> string)
    ensures EntryNode(FixLoop(show).manifest) == Some(ToolNode("in"))
  {
    var ns, es := Nodes(), Edges();
    assert ns[1..] == [ns[1], ns[2], ns[3]];
    assert ns[1..][1..] == [ns[2], ns[3]];
    assert ns[1..][1..][1..] == [ns[3]];
    assert ns[1..][1..][1..][1..] == [];
    assert HasIncoming(es, "test") by { assert es[0].target == "test"; }
    assert HasIncoming(es, "fix") by { assert es[1].target == "fix"; }
    assert HasIncoming(es, "merge") by { assert es[3].target == "merge"; }
    assert !HasIncoming(es, "in");
    assert Entries(ns, es) == [ns[0]];
  }

  lemma Routes(show: Value -> string, nodes: map<string, Fields>)
    ensures Route(FixLoop(show), "in", nodes) == Go("test")
    ensures Route(FixLoop(show), "test", nodes) == Go("fix")
    ensures Route(FixLoop(show), "fix", nodes) == Go("test")
  {
    Leaving();
    var state := EvalDocument(map[], nodes);
    ScanRule([Edges()[0]], state);
    ScanRule([Edges()[1]], state);
    assert Fires(Again(), state);
  }

  lemma Valid(show: Value -> string)
    ensures ValidManifest(FixLoop(show).manifest)
  {
    Declared();
    var es := Edges();
    assert es[0].target == es[2].target == "test" && es[1].target == "fix" && es[3].target == "merge";
  }

  /** The facts about the fix loop that the run below depends on. */
  ghost predicate LoopsThroughFix(f: Flow)
  {
    && ValidManifest(f.manifest) && JsonFields(f.input)
    && EntryNode(f.manifest) == Some(ToolNode("in"))
    && FindNode(f.manifest.nodes, "in") == Some(ToolNode("in"))
    && FindNode(f.manifest.nodes, "test") == Some(ToolNode("test"))
    && FindNode(f.manifest.nodes, "fix") == Some(ToolNode("fix"))
    && (forall nodes :: Route(f, "in", nodes) == Go("test"))
    && (forall nodes :: Route(f, "test", nodes) == Go("fix"))
    && (forall nodes :: Route(f, "fix", nodes) == Go("test"))
  }

  lemma FixLoopLoops(show: Value -> string)
    ensures LoopsThroughFix(FixLoop(show))
  {
    Valid(show);
    Declared();
    Entry(show);
    forall nodes { Routes(show, nodes); }
  }

  /** The committed writes of one uneventful activation; `event` says whether the process
      lived long enough to append the completion event. */
  function Visit(db: Db, node: string, next: string, event: bool): Db
  {
    var closed := CloseStep(OpenStep(db, node, 1, map[]), Completed, Some(map[]), NoError);
    var routed := if event then closed.routed + {|db.steps|} else closed.routed;
    closed.(state := Checkpointed(db.state, node, map[], Some(next)), routed := routed)
  }

  function Begun(): Db
  {
    Db(Active, NotStopped, State(Some("in"), map[], 0.0, 0.0), [], {})
  }

  function VisitRow(id: nat, node: string): Step
  {
    Step(id, node, Completed, 1, map[], Some(map[]), NoError)
  }

  lemma NoBindings(f: Flow, node: Node, nodes: map<string, Fields>)
    requires node.bindings == map[]
    ensures StepInput(f, node, nodes) == Some(map[])
  {
  }

  /** The two halves of a visit: its step completes, then its checkpoint is written. */
  lemma VisitCompletes(f: Flow, db: Db, node: Node)
    requires WellFormed(f, db) && Settled(f, db) && !Terminal(db)
    requires db.state.cursor == Some(node.id) && node.bindings == map[]
    requires FindNode(f.manifest.nodes, node.id) == Some(node)
    ensures
      var closed := CloseStep(OpenStep(db, node.id, 1, map[]), Completed, Some(map[]), NoError);
      && Unfolded(true, f, closed)
      && PathOf(closed) == PathOf(db) + [VisitRow(|db.steps|, node.id)]
  {
    NoBindings(f, node, db.state.nodes);
    OpenKeepsPath(f, db, node.id, 1, map[]);
    var begun := OpenStep(db, node.id, 1, map[]);
    SamePathSameStanding(true, f, db, begun);
    CompleteOpensWindow(f, begun, node, map[]);
  }

  /** A visit to the cursor node that goes where routing leads keeps a run settled. */
  lemma VisitSettles(f: Flow, db: Db, node: Node, next: string, event: bool)
    requires WellFormed(f, db) && Settled(f, db) && !Terminal(db)
    requires db.state.cursor == Some(node.id) && node.bindings == map[]
    requires FindNode(f.manifest.nodes, node.id) == Some(node)
    requires Route(f, node.id, db.state.nodes[node.id := map[]]) == Go(next)
    ensures
      var after := Visit(db, node.id, next, event);
      && WellFormed(f, after) && Settled(f, after)
      && PathOf(after) == PathOf(db) + [VisitRow(|db.steps|, node.id)]
  {
    VisitCompletes(f, db, node);
    var closed := CloseStep(OpenStep(db, node.id, 1, map[]), Completed, Some(map[]), NoError);
    var checkpointed := closed.(state := Checkpointed(db.state, node.id, map[], Some(next)));
    CheckpointSettles(true, f, closed, checkpointed.state);
    SamePathSameStanding(true, f, checkpointed, Visit(db, node.id, next, event));
  }

  function AfterIn(): Db { Visit(Begun(), "in", "test", true) }

  /** The first test completes and is checkpointed, but its completion event is lost. */
  function AfterTest(): Db { Visit(AfterIn(), "test", "fix", false) }

  /** The run fixes, and dies before testing again. */
  function LostEventRun(): Db { Visit(AfterTest(), "fix", "test", true) }

  lemma AfterInIsSettled(f: Flow)
    requires LoopsThroughFix(f)
    ensures WellFormed(f, AfterIn()) && Settled(f, AfterIn())
    ensures PathOf(AfterIn()) == [VisitRow(0, "in")]
  {
    assert PathOf(Begun()) == [];
    VisitSettles(f, Begun(), ToolNode("in"), "test", true);
  }

  lemma AfterTestIsSettled(f: Flow)
    requires LoopsThroughFix(f)
    ensures WellFormed(f, AfterTest()) && Settled(f, AfterTest())
    ensures PathOf(AfterTest()) == [VisitRow(0, "in"), VisitRow(1, "test")]
  {
    AfterInIsSettled(f);
    VisitSettles(f, AfterIn(), ToolNode("test"), "fix", false);
  }

  lemma LostEventRunIsSettled(f: Flow)
    requires LoopsThroughFix(f)
    ensures WellFormed(f, LostEventRun()) && Settled(f, LostEventRun())
    ensures PathOf(LostEventRun()) == [VisitRow(0, "in"), VisitRow(1, "test"), VisitRow(2, "fix")]
  {
    AfterTestIsSettled(f);
    VisitSettles(f, AfterTest(), ToolNode("fix"), "test", true);
  }

  lemma FirstTestIsUnrouted(db: Db)
    requires PathOf(db) == [VisitRow(0, "in"), VisitRow(1, "test"), VisitRow(2, "fix")]
    requires db.state.cursor == Some("test") && 1 !in db.routed
    ensures Unrouted(db) == Some(VisitRow(1, "test"))
  {
    var path := PathOf(db);
    assert path[..2] == [VisitRow(0, "in"), VisitRow(1, "test")];
    assert LatestAt(path[..2], "test") == Some(VisitRow(1, "test"));
  }

  lemma LostEventSkips(f: Flow, db: Db)
    requires LoopsThroughFix(f)
    requires PathOf(db) == [VisitRow(0, "in"), VisitRow(1, "test"), VisitRow(2, "fix")]
    requires db.state.cursor == Some("test") && 1 !in db.routed
    ensures SkipsVisit(f, db)
  {
    FirstTestIsUnrouted(db);
    assert Rerouted(f, db, VisitRow(1, "test")) == Go("fix");
  }

  lemma LostEventRows()
    ensures LostEventRun().state.cursor == Some("test") && 1 !in LostEventRun().routed
  {
    assert |AfterIn().steps| == 1 && |AfterTest().steps| == 2;
    assert AfterIn().routed == {0} && AfterTest().routed == {0};
  }

  /** Resume is not faithful after every crash: the rows of this run are faithful, and
      resuming it skips the second test. */
  lemma ResumeCanSkipVisit(f: Flow)
    requires LoopsThroughFix(f)
    ensures Faithful(f, LostEventRun()) && SkipsVisit(f, LostEventRun())
  {
    LostEventRunIsSettled(f);
    LostEventRows();
    LostEventSkips(f, LostEventRun());
  }

  /** The concrete case: a registered-style manifest on which it happens. */
  lemma FixLoopSkipsVisit(show: Value -> string)
    ensures Faithful(FixLoop(show), LostEventRun()) && SkipsVisit(FixLoop(show), LostEventRun())
  {
    FixLoopLoops(show);
    ResumeCanSkipVisit(FixLoop(show));
  }
}
