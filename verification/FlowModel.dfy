/** Flow manifests and the routing rule shared by live execution, resume and replay. */
module FlowModel {
  import opened Wrappers
  import opened Documents
  import opened FlowExpressions

  datatype Backoff = Fixed | Exponential

  datatype RetryPolicy = RetryPolicy(maxAttempts: int, backoff: Backoff, initialDelay: real)

  datatype NodeKind = Agent | Skill | Tool | Conditional | Human | Subflow | MapNode

  datatype Node = Node(id: string, kind: NodeKind, bindings: map<string, Template>,
                       retries: Option<RetryPolicy>)

  /** An edge carries a predicate, a routing signal, or neither; never both. */
  datatype Guard = Unguarded | When(predicate_: Expr) | On(signal: string)

  datatype Edge = Edge(source: string, target: string, guard: Guard)

  datatype Manifest = Manifest(nodes: seq<Node>, edges: seq<Edge>, defaultRetries: RetryPolicy)

  /** A flow definition with the input of one run; `show` is Python's `str`. */
  datatype Flow = Flow(manifest: Manifest, input: Fields, show: Value -> string)

  function FindNode(nodes: seq<Node>, id: string): Option<Node>
  {
    if nodes == [] then None
    else if nodes[0].id == id then Some(nodes[0])
    else FindNode(nodes[1..], id)
  }

  function EdgesFrom(edges: seq<Edge>, id: string): seq<Edge>
  {
    if edges == [] then []
    else (if edges[0].source == id then [edges[0]] else []) + EdgesFrom(edges[1..], id)
  }

  predicate HasIncoming(edges: seq<Edge>, id: string)
  {
    exists i | 0 <= i < |edges| :: edges[i].target == id
  }

  function Entries(nodes: seq<Node>, edges: seq<Edge>): seq<Node>
  {
    if nodes == [] then []
    else (if HasIncoming(edges, nodes[0].id) then [] else [nodes[0]]) + Entries(nodes[1..], edges)
  }

  /** The single node with no incoming edge, when there is exactly one. */
  function EntryNode(m: Manifest): Option<Node>
  {
    var entries := Entries(m.nodes, m.edges);
    if |entries| == 1 then Some(entries[0]) else None
  }

  /** What registration guarantees about edges: they end at declared nodes. */
  predicate ValidManifest(m: Manifest)
  {
    forall i | 0 <= i < |m.edges| :: FindNode(m.nodes, m.edges[i].target).Some?
  }

  /** The document expressions are evaluated against. */
  function EvalDocument(input: Fields, nodes: map<string, Fields>): Value
  {
    Dict(map["flow" := Dict(map["input" := Dict(input)]),
             "nodes" := Dict(map id | id in nodes :: Dict(map["output" := Dict(nodes[id])]))])
  }

  /** `Halt` is a normal end: the node is terminal or only leaves by signals. */
  datatype Routing = Halt | Go(target: string) | PredicateError | NoRoute

  datatype Scan = Matched(target: string) | Broken | NoMatch

  predicate Fires(e: Edge, state: Value)
  {
    e.guard.When? && var v := Evaluate(e.guard.predicate_, state); v.Some? && Truthy(v.value)
  }

  predicate Breaks(e: Edge, state: Value)
  {
    e.guard.When? && Evaluate(e.guard.predicate_, state).None?
  }

  function ScanGuarded(edges: seq<Edge>, state: Value): Scan
  {
    if edges == [] then NoMatch
    else if Breaks(edges[0], state) then Broken
    else if Fires(edges[0], state) then Matched(edges[0].target)
    else ScanGuarded(edges[1..], state)
  }

  function ScanUnguarded(edges: seq<Edge>): Scan
  {
    if edges == [] then NoMatch
    else if edges[0].guard.Unguarded? then Matched(edges[0].target)
    else ScanUnguarded(edges[1..])
  }

  function SelectNext(m: Manifest, id: string, state: Value): Routing
  {
    var edges := EdgesFrom(m.edges, id);
    if edges == [] then Halt
    else
      match ScanGuarded(edges, state)
      case Broken => PredicateError
      case Matched(t) => Go(t)
      case NoMatch =>
        match ScanUnguarded(edges)
        case Matched(t) => Go(t)
        case _ => if forall e | e in edges :: e.guard.On? then Halt else NoRoute
  }

  predicate Quiet(edges: seq<Edge>, n: nat, state: Value)
    requires n <= |edges|
  {
    forall j | 0 <= j < n :: !Fires(edges[j], state) && !Breaks(edges[j], state)
  }

  /** The first edge, in declaration order, whose predicate fires or fails. */
  function FirstLoud(edges: seq<Edge>, state: Value): (n: nat)
    ensures n <= |edges| && Quiet(edges, n, state)
    ensures n < |edges| ==> Fires(edges[n], state) || Breaks(edges[n], state)
  {
    if edges == [] || Fires(edges[0], state) || Breaks(edges[0], state) then 0
    else
      var n := FirstLoud(edges[1..], state);
      assert forall j | 0 < j < n + 1 :: edges[j] == edges[1..][j - 1];
      n + 1
  }

  function FirstUnguarded(edges: seq<Edge>): (n: nat)
    ensures n <= |edges| && forall j | 0 <= j < n :: !edges[j].guard.Unguarded?
    ensures n < |edges| ==> edges[n].guard.Unguarded?
  {
    if edges == [] || edges[0].guard.Unguarded? then 0 else 1 + FirstUnguarded(edges[1..])
  }

  lemma {:induction false} ScanRule(edges: seq<Edge>, state: Value)
    ensures
      var n, u := FirstLoud(edges, state), FirstUnguarded(edges);
      && ScanGuarded(edges, state) == (if n == |edges| then NoMatch
                                       else if Breaks(edges[n], state) then Broken
                                       else Matched(edges[n].target))
      && ScanUnguarded(edges) == (if u == |edges| then NoMatch else Matched(edges[u].target))
  {
    if edges != [] {
      ScanRule(edges[1..], state);
    }
  }

  /** The routing rule in declarative form, for every manifest, node and state. */
  lemma RoutingRule(m: Manifest, id: string, state: Value)
    ensures
      var edges := EdgesFrom(m.edges, id);
      var r := SelectNext(m, id, state);
      var n, u := FirstLoud(edges, state), FirstUnguarded(edges);
      // the first predicate that fires is followed; one that fails before it fails the run
      && (n < |edges| ==> r == if Fires(edges[n], state) then Go(edges[n].target) else PredicateError)
      // with no predicate left, the first unguarded edge is the default
      && (n == |edges| && u < |edges| ==> r == Go(edges[u].target))
      // the run ends here exactly when only signal edges (or none) leave the node
      && (r.Halt? <==> forall e | e in edges :: e.guard.On?)
      // routing fails closed exactly when there are predicates, none fires, and no default
      && (r.NoRoute? <==> n == |edges| && u == |edges| && exists e | e in edges :: e.guard.When?)
  {
    var edges := EdgesFrom(m.edges, id);
    ScanRule(edges, state);
    var n, u := FirstLoud(edges, state), FirstUnguarded(edges);
    if n < |edges| {
      assert edges[n] in edges && !edges[n].guard.On?;
    } else if u < |edges| {
      assert edges[u] in edges && !edges[u].guard.On?;
    } else {
      assert forall e | e in edges :: !e.guard.Unguarded?;
    }
  }

  lemma {:induction false} EdgesFromAreEdges(edges: seq<Edge>, id: string)
    ensures forall e | e in EdgesFrom(edges, id) :: e in edges && e.source == id
  {
    if edges != [] {
      EdgesFromAreEdges(edges[1..], id);
    }
  }

  /** Routing never leaves the declared graph. */
  lemma SelectNextIsDeclared(m: Manifest, id: string, state: Value)
    requires ValidManifest(m)
    ensures SelectNext(m, id, state).Go? ==>
              FindNode(m.nodes, SelectNext(m, id, state).target).Some?
  {
    RoutingRule(m, id, state);
    EdgesFromAreEdges(m.edges, id);
  }

  lemma {:induction false} EntriesAreNodes(nodes: seq<Node>, edges: seq<Edge>)
    ensures forall n | n in Entries(nodes, edges) :: n in nodes && !HasIncoming(edges, n.id)
  {
    if nodes != [] {
      EntriesAreNodes(nodes[1..], edges);
    }
  }

  lemma {:induction false} FindNodeFinds(nodes: seq<Node>, id: string)
    ensures FindNode(nodes, id).Some? <==> exists n | n in nodes :: n.id == id
    ensures FindNode(nodes, id).Some? ==>
              FindNode(nodes, id).value in nodes && FindNode(nodes, id).value.id == id
  {
    if nodes != [] {
      FindNodeFinds(nodes[1..], id);
      assert nodes == [nodes[0]] + nodes[1..];
    }
  }

  lemma EntryNodeIsDeclared(m: Manifest)
    ensures EntryNode(m).Some? ==> FindNode(m.nodes, EntryNode(m).value.id).Some?
  {
    EntriesAreNodes(m.nodes, m.edges);
    if EntryNode(m).Some? {
      assert EntryNode(m).value in Entries(m.nodes, m.edges);
      FindNodeFinds(m.nodes, EntryNode(m).value.id);
    }
  }

  /** The edges of a node are exactly those that leave it, in declaration order. */
  lemma {:induction false} EdgesConcatenate(a: seq<Edge>, b: seq<Edge>, id: string)
    ensures EdgesFrom(a + b, id) == EdgesFrom(a, id) + EdgesFrom(b, id)
    decreases |a|
  {
    if a == [] {
      assert a + b == b;
    } else {
      EdgesConcatenate(a[1..], b, id);
      assert (a + b)[1..] == a[1..] + b;
    }
  }

  lemma EdgeLeavesItsSource(e: Edge, id: string)
    ensures EdgesFrom([e], id) == if e.source == id then [e] else []
  {
    assert [e][1..] == [];
  }

  /** Position `i` holds a node no edge leads to. */
  predicate IsEntry(m: Manifest, i: nat)
  {
    i < |m.nodes| && forall j | 0 <= j < |m.edges| :: m.edges[j].target != m.nodes[i].id
  }

  lemma {:induction false} EntriesConcatenate(a: seq<Node>, b: seq<Node>, edges: seq<Edge>)
    ensures Entries(a + b, edges) == Entries(a, edges) + Entries(b, edges)
    decreases |a|
  {
    if a == [] {
      assert a + b == b;
    } else {
      EntriesConcatenate(a[1..], b, edges);
      assert (a + b)[1..] == a[1..] + b && (a + b)[0] == a[0];
      var first := if HasIncoming(edges, a[0].id) then [] else [a[0]];
      assert Entries(a + b, edges) == first + Entries(a[1..] + b, edges);
      assert Entries(a, edges) == first + Entries(a[1..], edges);
    }
  }

  lemma {:induction false} NoEntries(nodes: seq<Node>, edges: seq<Edge>)
    ensures Entries(nodes, edges) == [] <==> forall i | 0 <= i < |nodes| :: HasIncoming(edges, nodes[i].id)
    decreases |nodes|
  {
    if nodes != [] {
      NoEntries(nodes[1..], edges);
      assert forall i | 0 < i < |nodes| :: nodes[i] == nodes[1..][i - 1];
    }
  }

  lemma OneEntry(n: Node, edges: seq<Edge>)
    ensures Entries([n], edges) == if HasIncoming(edges, n.id) then [] else [n]
  {
    assert [n][1..] == [];
  }

  lemma EntriesAround(nodes: seq<Node>, edges: seq<Edge>, i: nat)
    requires i < |nodes| && !HasIncoming(edges, nodes[i].id)
    ensures Entries(nodes, edges) == Entries(nodes[..i], edges) + [nodes[i]] + Entries(nodes[i + 1..], edges)
  {
    var before, after := nodes[..i], nodes[i + 1..];
    assert nodes == before + ([nodes[i]] + after);
    EntriesConcatenate(before, [nodes[i]] + after, edges);
    EntriesConcatenate([nodes[i]], after, edges);
    OneEntry(nodes[i], edges);
  }

  lemma OthersHaveIncoming(nodes: seq<Node>, edges: seq<Edge>, i: nat)
    requires i < |nodes|
    ensures Entries(nodes[..i], edges) == [] && Entries(nodes[i + 1..], edges) == [] <==>
              forall j | 0 <= j < |nodes| && j != i :: HasIncoming(edges, nodes[j].id)
  {
    var before, after := nodes[..i], nodes[i + 1..];
    NoEntries(before, edges);
    NoEntries(after, edges);
    assert forall j | 0 <= j < i :: before[j] == nodes[j];
    assert forall j | 0 <= j < |after| :: after[j] == nodes[j + i + 1];
    assert forall j | i < j < |nodes| :: nodes[j] == after[j - i - 1];
  }

  lemma EntryHasNoIncoming(m: Manifest, i: nat)
    requires i < |m.nodes|
    ensures IsEntry(m, i) <==> !HasIncoming(m.edges, m.nodes[i].id)
  {
  }

  /** The entry node is the one no edge leads to; with several such there is none. */
  lemma EntryNodeExactly(m: Manifest, i: nat)
    requires IsEntry(m, i)
    ensures EntryNode(m).Some? <==> forall j: nat | IsEntry(m, j) :: j == i
    ensures EntryNode(m).Some? ==> EntryNode(m).value == m.nodes[i]
  {
    EntryHasNoIncoming(m, i);
    EntriesAround(m.nodes, m.edges, i);
    OthersHaveIncoming(m.nodes, m.edges, i);
    forall j: nat | j < |m.nodes| ensures IsEntry(m, j) <==> !HasIncoming(m.edges, m.nodes[j].id) {
      EntryHasNoIncoming(m, j);
    }
    assert (forall j: nat | IsEntry(m, j) :: j == i) <==>
           forall j | 0 <= j < |m.nodes| && j != i :: HasIncoming(m.edges, m.nodes[j].id);
  }

  /** With no such node there is none either. */
  lemma NoEntryNode(m: Manifest)
    requires forall i: nat :: !IsEntry(m, i)
    ensures EntryNode(m).None?
  {
    forall i | 0 <= i < |m.nodes| ensures HasIncoming(m.edges, m.nodes[i].id) {
      assert !IsEntry(m, i);
    }
    NoEntries(m.nodes, m.edges);
  }
}
