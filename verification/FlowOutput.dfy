/** The consolidated output of a completed run. */
module FlowOutput {
  import opened Wrappers
  import opened Documents
  import opened FlowModel

  /** The completed node declared last. */
  function LastDeclared(nodes: seq<Node>, completed: set<string>): Option<string>
  {
    if nodes == [] then None
    else if nodes[|nodes| - 1].id in completed then Some(nodes[|nodes| - 1].id)
    else LastDeclared(nodes[..|nodes| - 1], completed)
  }

  lemma {:induction false} LastDeclaredIsLast(nodes: seq<Node>, completed: set<string>, k: nat)
    requires k < |nodes| && nodes[k].id in completed
    ensures var w := LastDeclared(nodes, completed);
            && w.Some? && w.value in completed
            && exists j | k <= j < |nodes| :: nodes[j].id == w.value
    ensures (forall j | k < j < |nodes| :: nodes[j].id !in completed) ==>
              LastDeclared(nodes, completed) == Some(nodes[k].id)
    decreases |nodes|
  {
    var n := |nodes| - 1;
    if nodes[n].id !in completed {
      LastDeclaredIsLast(nodes[..n], completed, k);
      var j :| k <= j < n && nodes[..n][j].id == LastDeclared(nodes, completed).value;
      assert nodes[j].id == LastDeclared(nodes, completed).value;
    }
  }

  function ConsolidatedOutput(nodes: seq<Node>, outputs: map<string, Fields>): Fields
  {
    var winner := LastDeclared(nodes, outputs.Keys);
    if winner.Some? && winner.value in outputs then outputs[winner.value] else map[]
  }

  /** The loop over the declared nodes keeps the output of the completed one declared last. */
  method FinalOutput(m: Manifest, outputs: map<string, Fields>) returns (output: Fields)
    ensures output == ConsolidatedOutput(m.nodes, outputs)
  {
    output := map[];
    for i := 0 to |m.nodes|
      invariant output == ConsolidatedOutput(m.nodes[..i], outputs)
    {
      assert m.nodes[..i + 1][..i] == m.nodes[..i];
      if m.nodes[i].id in outputs {
        output := outputs[m.nodes[i].id];
      }
    }
    assert m.nodes[..|m.nodes|] == m.nodes;
  }

  /** Whatever the completed nodes returned, the run's output is that of `last`. */
  ghost predicate AlwaysOutputs(m: Manifest, completed: set<string>, last: string)
  {
    forall outputs: map<string, Fields> | outputs.Keys == completed && last in outputs ::
      ConsolidatedOutput(m.nodes, outputs) == outputs[last]
  }

  /** The documented rule, that the last completed node wins, holds for every output exactly
      when no other completed node is declared after it. */
  lemma LastCompletedWins(m: Manifest, completed: set<string>, k: nat)
    requires forall i, j | 0 <= i < j < |m.nodes| :: m.nodes[i].id != m.nodes[j].id
    requires k < |m.nodes| && m.nodes[k].id in completed
    ensures AlwaysOutputs(m, completed, m.nodes[k].id) <==>
            forall j | k < j < |m.nodes| :: m.nodes[j].id !in completed
  {
    var last := m.nodes[k].id;
    LastDeclaredIsLast(m.nodes, completed, k);
    if j :| k < j < |m.nodes| && m.nodes[j].id in completed {
      LastDeclaredIsLast(m.nodes, completed, j);
      var w := LastDeclared(m.nodes, completed).value;
      var outputs: map<string, Fields> :=
        map id | id in completed :: if id == last then map[] else map["late" := Null];
      assert outputs.Keys == completed && "late" in outputs[w] && outputs[w] != outputs[last];
    }
  }
}
