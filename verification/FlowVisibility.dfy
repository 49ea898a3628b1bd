/** What expressions see of a run: its input, and the latest output of each node. */
module FlowVisibility {
  import opened Wrappers
  import opened Documents
  import opened FlowExpressions
  import opened FlowModel
  import opened FlowReplay

  lemma ResolveStep(k: string, rest: seq<Segment>, fields: Fields)
    ensures Resolve([Key(k)] + rest, Dict(fields)) == if k in fields then Resolve(rest, fields[k]) else Null
  {
    assert ([Key(k)] + rest)[1..] == rest;
  }

  /** `nodes.<id>.output` is what the node returned, and null for a node that has not completed. */
  lemma SeesOutput(input: Fields, nodes: map<string, Fields>, id: string, rest: seq<Segment>)
    ensures Resolve([Key("nodes"), Key(id), Key("output")] + rest, EvalDocument(input, nodes)) ==
            if id in nodes then Resolve(rest, Dict(nodes[id])) else Null
  {
    var fields := EvalDocument(input, nodes).fields;
    var path := [Key("nodes"), Key(id), Key("output")] + rest;
    assert path == [Key("nodes")] + ([Key(id), Key("output")] + rest);
    ResolveStep("nodes", [Key(id), Key("output")] + rest, fields);
    assert [Key(id), Key("output")] + rest == [Key(id)] + ([Key("output")] + rest);
    ResolveStep(id, [Key("output")] + rest, fields["nodes"].fields);
    if id in nodes {
      ResolveStep("output", rest, fields["nodes"].fields[id].fields);
    }
  }

  /** `flow.input` is the run's input. */
  lemma SeesInput(input: Fields, nodes: map<string, Fields>, rest: seq<Segment>)
    ensures Resolve([Key("flow"), Key("input")] + rest, EvalDocument(input, nodes)) == Resolve(rest, Dict(input))
  {
    var fields := EvalDocument(input, nodes).fields;
    assert [Key("flow"), Key("input")] + rest == [Key("flow")] + ([Key("input")] + rest);
    ResolveStep("flow", [Key("input")] + rest, fields);
    ResolveStep("input", rest, fields["flow"].fields);
  }

  /** Step `i` is the latest on the path of the node `id`. */
  predicate LatestStep(path: seq<Step>, id: string, i: nat)
  {
    i < |path| && path[i].node == id && forall j | i < j < |path| :: path[j].node != id
  }

  /** Folding a path keeps the latest output of each node. */
  lemma {:induction false} FoldKeepsLatest(path: seq<Step>, id: string, i: nat)
    requires LatestStep(path, id, i)
    ensures id in NodesAfter(path) && NodesAfter(path)[id] == OutputOf(path[i])
    decreases |path|
  {
    var n := |path| - 1;
    if i < n {
      FoldKeepsLatest(path[..n], id, i);
    }
  }

  /** And nothing else. */
  lemma {:induction false} FoldHasOnlySteps(path: seq<Step>, id: string)
    requires forall i | 0 <= i < |path| :: path[i].node != id
    ensures id !in NodesAfter(path)
  {
    if path != [] {
      FoldHasOnlySteps(path[..|path| - 1], id);
    }
  }

  /** The value of field `k` in the latest output of `id` on the path, null if there is none. */
  function SeenField(path: seq<Step>, id: string, k: string): Value
  {
    if path == [] then Null
    else if Last(path).node == id then (if k in OutputOf(Last(path)) then OutputOf(Last(path))[k] else Null)
    else SeenField(path[..|path| - 1], id, k)
  }

  lemma SeenFieldIsLatest(path: seq<Step>, id: string, k: string, i: nat)
    requires LatestStep(path, id, i)
    ensures SeenField(path, id, k) == if k in OutputOf(path[i]) then OutputOf(path[i])[k] else Null
  {
    FoldHasSeenField(path, id, k);
    FoldKeepsLatest(path, id, i);
  }

  lemma NothingSeenBefore(path: seq<Step>, id: string, k: string)
    requires forall i | 0 <= i < |path| :: path[i].node != id
    ensures SeenField(path, id, k) == Null
  {
    FoldHasSeenField(path, id, k);
    FoldHasOnlySteps(path, id);
  }

  function OutputField(id: string, k: string): Expr
  {
    Path([Key("nodes"), Key(id), Key("output"), Key(k)])
  }

  /** Evaluated after a path, `nodes.<id>.output.<k>` is that field of the latest output. */
  lemma {:induction false} ReadsLatestOutput(f: Flow, path: seq<Step>, id: string, k: string)
    ensures Evaluate(OutputField(id, k), EvalDocument(f.input, NodesAfter(path))) == Some(SeenField(path, id, k))
  {
    var nodes := NodesAfter(path);
    SeesOutput(f.input, nodes, id, [Key(k)]);
    assert [Key("nodes"), Key(id), Key("output")] + [Key(k)] == [Key("nodes"), Key(id), Key("output"), Key(k)];
    if id in nodes {
      assert [Key(k)] + [] == [Key(k)];
      ResolveStep(k, [], nodes[id]);
    }
    FoldHasSeenField(path, id, k);
  }

  lemma {:induction false} FoldHasSeenField(path: seq<Step>, id: string, k: string)
    ensures SeenField(path, id, k) ==
            if id in NodesAfter(path) && k in NodesAfter(path)[id] then NodesAfter(path)[id][k] else Null
  {
    if path != [] {
      FoldHasSeenField(path[..|path| - 1], id, k);
    }
  }

  /** An edge guarded by a field of a node's output fires exactly if the latest completed
      output of that node has a truthy value there. */
  lemma EdgeReadsLatestOutput(f: Flow, path: seq<Step>, e: Edge, id: string, k: string)
    requires e.guard == When(OutputField(id, k))
    ensures Fires(e, EvalDocument(f.input, NodesAfter(path))) <==> Truthy(SeenField(path, id, k))
    ensures !Breaks(e, EvalDocument(f.input, NodesAfter(path)))
  {
    ReadsLatestOutput(f, path, id, k);
  }

  /** So a node that branches on such a field, with a default edge, goes where its latest
      output says. */
  lemma RouteReadsLatestOutput(f: Flow, path: seq<Step>, id: string, k: string, e: Edge, default: Edge)
    requires path != [] && EdgesFrom(f.manifest.edges, Last(path).node) == [e, default]
    requires e.guard == When(OutputField(id, k)) && default.guard.Unguarded?
    ensures RouteAfter(f, path) == Go(if Truthy(SeenField(path, id, k)) then e.target else default.target)
  {
    var state := EvalDocument(f.input, NodesAfter(path));
    EdgeReadsLatestOutput(f, path, e, id, k);
    RoutingRule(f.manifest, Last(path).node, state);
    var edges := EdgesFrom(f.manifest.edges, Last(path).node);
    assert RouteAfter(f, path) == SelectNext(f.manifest, Last(path).node, state);
    assert edges[0] == e && edges[1] == default && !Fires(default, state) && !Breaks(default, state);
    var n, u := FirstLoud(edges, state), FirstUnguarded(edges);
    if Fires(e, state) {
      assert n == 0;
    } else {
      assert n == 2;
      assert u == 1;
    }
  }

  /** A step's input has exactly its node's bindings, and one bound to a field of a node's
      output holds that field of the latest output. */
  lemma InputReadsLatestOutput(f: Flow, path: seq<Step>, node: Node, x: string, id: string, k: string)
    requires !node.kind.MapNode? && x in node.bindings && node.bindings[x] == Exact(OutputField(id, k))
    ensures var input := StepInput(f, node, NodesAfter(path));
            input.Some? ==> input.value.Keys == node.bindings.Keys && input.value[x] == SeenField(path, id, k)
  {
    var state := EvalDocument(f.input, NodesAfter(path));
    ReadsLatestOutput(f, path, id, k);
    assert Render(node.bindings[x], state, f.show) == Evaluate(OutputField(id, k), state);
  }

  /** A map node's step input is empty: its bindings are rendered per item by its handler. */
  lemma MapInputIsEmpty(f: Flow, node: Node, nodes: map<string, Fields>)
    requires node.kind.MapNode?
    ensures StepInput(f, node, nodes) == Some(map[])
  {
  }
}
