/**
 The decision graph: building it from its nodes and edges, validating it, and
 evaluating it with the walker. The result of an evaluation, with all its
 restarts, is the result of pruning the graph first and running it once.
 */
module DecisionGraph {
  import opened EdgeCascade
  import opened Wrappers
  import opened DecisionProgram
  import opened PrunedGraph
  import opened PruningOrder
  import opened PrunedResult
  import opened DecisionWalk
  import opened GraphWalker

  datatype EvaluationError =
    | InvalidInputCount(count: nat)
    | CyclicGraph
    | DepthLimitExceeded
    | NodeError(node: nat, error: string)

  datatype Outcome<+V> = Done(result: V) | Failed(error: EvaluationError)

  // ---------------------------------------------------------------- building the graph

  datatype NodeContent = NodeContent(id: string, kind: NodeKind)

  datatype EdgeContent = EdgeContent(sourceId: string, targetId: string, handle: Option<string>)

  datatype Built = Built(edges: seq<Edge>, count: nat) | MissingNode(id: string)

  /** The index of a node id: a later node with the same id takes the earlier one's place. */
  function IndexOf(nodes: seq<NodeContent>, id: string): Option<nat> {
    if nodes == [] then None
    else if nodes[|nodes| - 1].id == id then Some(|nodes| - 1)
    else IndexOf(nodes[..|nodes| - 1], id)
  }

  /** An id names the last node that has it, and nothing if there is none. */
  lemma {:induction false} IndexOfFacts(nodes: seq<NodeContent>, id: string)
    ensures IndexOf(nodes, id).Some? <==> exists i :: 0 <= i < |nodes| && nodes[i].id == id
    ensures IndexOf(nodes, id).Some? ==>
      var n := IndexOf(nodes, id).value;
      n < |nodes| && nodes[n].id == id && forall i :: n < i < |nodes| ==> nodes[i].id != id
  {
    if nodes != [] && nodes[|nodes| - 1].id != id {
      var rest := nodes[..|nodes| - 1];
      IndexOfFacts(rest, id);
      if exists i :: 0 <= i < |nodes| && nodes[i].id == id {
        var i :| 0 <= i < |nodes| && nodes[i].id == id;
        assert rest[i].id == id;
      }
    }
  }

  /** Whether both ends of an edge name a node. */
  predicate Resolves(nodes: seq<NodeContent>, e: EdgeContent) {
    IndexOf(nodes, e.sourceId).Some? && IndexOf(nodes, e.targetId).Some?
  }

  /** The edge at k is the first of which an end names no node. */
  predicate FirstUnresolved(nodes: seq<NodeContent>, edges: seq<EdgeContent>, k: nat) {
    k < |edges| && !Resolves(nodes, edges[k]) && forall i :: 0 <= i < k ==> Resolves(nodes, edges[i])
  }

  /** The first id of an edge that names no node. */
  function FirstMissing(nodes: seq<NodeContent>, e: EdgeContent): (id: string)
    requires !Resolves(nodes, e)
  {
    if IndexOf(nodes, e.sourceId).None? then e.sourceId else e.targetId
  }

  /** The edge built connects the nodes that its ends name: of several with the same id the last. */
  predicate Connecting(nodes: seq<NodeContent>, e: EdgeContent, built: Edge) {
    && built.source < |nodes| && built.target < |nodes|
    && nodes[built.source].id == e.sourceId && nodes[built.target].id == e.targetId
    && (forall i :: built.source < i < |nodes| ==> nodes[i].id != e.sourceId)
    && (forall i :: built.target < i < |nodes| ==> nodes[i].id != e.targetId)
    && built.handle == e.handle
  }

  method BuildGraph(nodes: seq<NodeContent>, edges: seq<EdgeContent>) returns (r: Built)
    ensures r.Built? <==> forall i :: 0 <= i < |edges| ==> Resolves(nodes, edges[i])
    ensures r.Built? ==> |r.edges| == |edges| && r.count == |nodes|
    ensures r.Built? ==> forall i :: 0 <= i < |edges| ==> Connecting(nodes, edges[i], r.edges[i])
    ensures r.MissingNode? ==> forall i :: 0 <= i < |nodes| ==> nodes[i].id != r.id
    ensures r.MissingNode? ==>
      exists k: nat :: FirstUnresolved(nodes, edges, k) && r.id == FirstMissing(nodes, edges[k]) &&
        (r.id == edges[k].sourceId || (r.id == edges[k].targetId && IndexOf(nodes, edges[k].sourceId).Some?))
  {
    var index: map<string, nat> := map[];
    var n := 0;
    while n < |nodes|
      invariant 0 <= n <= |nodes|
      invariant forall id :: id in index <==> IndexOf(nodes[..n], id).Some?
      invariant forall id :: id in index ==> IndexOf(nodes[..n], id) == Some(index[id])
    {
      assert nodes[..n + 1][..n] == nodes[..n];
      index := index[nodes[n].id := n];
      n := n + 1;
    }
    assert nodes[..|nodes|] == nodes;
    var built: seq<Edge> := [];
    var i := 0;
    while i < |edges|
      invariant 0 <= i <= |edges| && |built| == i
      invariant forall k :: 0 <= k < i ==> Resolves(nodes, edges[k])
      invariant forall k :: 0 <= k < i ==> Connecting(nodes, edges[k], built[k])
    {
      IndexOfFacts(nodes, edges[i].sourceId);
      IndexOfFacts(nodes, edges[i].targetId);
      if edges[i].sourceId !in index {
        assert FirstUnresolved(nodes, edges, i);
        return MissingNode(edges[i].sourceId);
      }
      if edges[i].targetId !in index {
        assert FirstUnresolved(nodes, edges, i);
        return MissingNode(edges[i].targetId);
      }
      built := built + [Edge(index[edges[i].sourceId], index[edges[i].targetId], edges[i].handle)];
      i := i + 1;
    }
    r := Built(built, |nodes|);
  }

  /** The program that a built graph is, for a request. */
  function Loaded<V>(nodes: seq<NodeContent>, edges: seq<Edge>, sem: Semantics<V>, context: V): Program<V> {
    Program(edges, |nodes|, Indices(|nodes|), map n | n in Indices(|nodes|) :: nodes[n].kind, sem, context)
  }

  /** Whatever is built from nodes and edges is a graph that can be evaluated. */
  lemma BuiltIsWellFormed<V(!new)>(nodes: seq<NodeContent>, edges: seq<EdgeContent>, built: Built, sem: Semantics<V>,
      context: V)
    requires built.Built? && |built.edges| == |edges|
    requires forall i :: 0 <= i < |edges| ==> Connecting(nodes, edges[i], built.edges[i])
    ensures WellFormed(Loaded(nodes, built.edges, sem, context))
  {
    forall e | 0 <= e < |built.edges|
      ensures built.edges[e].source < |nodes| && built.edges[e].target < |nodes|
    {
      assert Connecting(nodes, edges[e], built.edges[e]);
    }
  }

  // ---------------------------------------------------------------- evaluation

  /** A graph has no cycle exactly if its nodes can be numbered upwards along the edges. */
  ghost predicate Acyclic<V(!new)>(p: Program<V>) {
    exists rank: nat -> nat :: Ranked(p, rank)
  }

  ghost predicate OutputReached<V>(p: Program<V>, st: State<V>) {
    exists n :: n in st.nodes && n in st.ordered && n in st.data && n in p.kinds && p.kinds[n].OutputNode?
  }

  /** The walk stopped because it ran out of work, reached an output node, or was restarted too often. */
  ghost predicate Finished<V>(p: Program<V>, st: State<V>, restarts: nat) {
    Complete(p, st) || OutputReached(p, st) || restarts >= ITER_MAX
  }

  /**
   A walk that ran out of work has visited exactly the nodes that hang together with the
   input nodes, and they are final.
   */
  lemma CompleteVisitsPart<V(!new)>(p: Program<V>, st: State<V>, rank: nat -> nat, order: seq<nat>)
    requires Inv(p, st) && Complete(p, st) && st.ordered <= st.data.Keys
    requires Trail(p, rank, st.live, order) && st.evaluated == Elements(order)
    ensures st.ordered == Part(p, st.live) == Part(p, Pruned(p, rank))
  {
    AllVisited(p, st);
    VisitedIsPruned(p, st, rank, order);
  }

  /** Everything an evaluation promises of the state it ends in. */
  ghost predicate FinalState<V(!new)>(p: Program<V>, st: State<V>, rank: nat -> nat) {
    && Inv(p, st)
    && st.ordered <= st.data.Keys
    && AgreesWithRun(p, st, rank)
  }

  /** What a failing handler was given is what a single run of the remaining graph would give it. */
  ghost predicate FailsInRun<V(!new)>(p: Program<V>, st: State<V>, rank: nat -> nat, n: nat, error: string) {
    && n in st.nodes && n in p.kinds && Fed(p, st, n) && AgreesWithRun(p, st, rank)
    && Execute(p, n, IncomingData(p, st.live, st.data, n)) == Failure(error)
    && Run(p, st.live, rank, n) == None
  }

  lemma FewRestarts<V(!new)>(p: Program<V>, rank: nat -> nat, w: Walk<V>)
    requires WalkOk(p, rank, w)
    ensures w.restarts <= |SwitchNodes(p)|
  {
    SubsetSize(Elements(w.order), SwitchNodes(p));
  }

  /** Storing the result of the node handed out leaves nothing visited without data. */
  lemma StoringKeepsWalk<V(!new)>(p: Program<V>, rank: nat -> nat, w: Walk<V>, n: nat, value: V)
    requires Handed(p, rank, w, n) && n !in w.st.data
    requires Execute(p, n, IncomingData(p, w.st.live, w.st.data, n)) == Output(value)
    ensures Steady(p, rank, Stored(w, n, value))
  {
    SetDataOk(p, w.st, n, value);
  }

  datatype Turn = Again | Stop | Broken(error: EvaluationError)

  /** Every handler that has run is logged once; a node whose handler failed has no data. */
  ghost predicate Logged(executed: seq<nat>, keys: set<nat>, turn: Turn) {
    NoDuplicates(executed) &&
    if turn.Broken? && turn.error.NodeError? then Elements(executed) == keys + {turn.error.node}
    else Elements(executed) == keys
  }

  /** What a turn of the loop of evaluate leaves behind, according to how it ended. */
  ghost predicate Turned<V(!new)>(p: Program<V>, rank: nat -> nat, w: Walk<V>, turn: Turn) {
    match turn
    case Again => Steady(p, rank, w)
    case Stop => Steady(p, rank, w) && Finished(p, w.st, w.restarts)
    case Broken(e) => WalkOk(p, rank, w) && e.NodeError? && FailsInRun(p, w.st, rank, e.node, e.error)
  }

  /**
   Executes one node handed out by the walker, unless it has its result from before
   a restart. An output node ends the evaluation.
   */
  method ExecuteNode<V(!new)>(p: Program<V>, g: StableGraph, w: GraphWalker<V>, nid: nat, ghost rank: nat -> nat,
      ghost executed0: seq<nat>)
    returns (turn: Turn, ghost executed: seq<nat>)
    requires Handed(p, rank, w.Now(g), nid)
    requires NoDuplicates(executed0) && Elements(executed0) == w.nodeData.Keys
    requires OutputLast(p, executed0, true)
    modifies w`nodeData
    ensures !turn.Broken? ==> Runs(p, old(w.Now(g)), nid, w.Now(g))
    ensures turn.Broken? ==> turn.error.NodeError? && turn.error.node == nid
    ensures turn.Broken? ==> w.Now(g) == old(w.Now(g)) && FailsOn(p, w.Now(g), nid, turn.error.error)
    ensures OutputLast(p, executed, turn.Again?)
    ensures Turned(p, rank, w.Now(g), turn)
    ensures Logged(executed, w.nodeData.Keys, turn)
  {
    executed := executed0;
    turn := Again;
    if nid !in w.nodeData {
      var input := IncomingData(p, g.live, w.nodeData, nid);
      var r := Execute(p, nid, input);
      if r.Output? {
        StoringKeepsWalk(p, rank, w.Now(g), nid, r.value);
        LogOne(executed0, w.nodeData, nid, r.value);
        executed := executed0 + [nid];
        w.nodeData := w.nodeData[nid := r.value];
        turn := if p.kinds[nid].OutputNode? then Stop else Again;
      } else {
        GraphLinks(p, w.St(g));
        FailureAgrees(p, w.St(g), rank, nid, r.error);
        LogFailure(executed0, w.nodeData.Keys, nid, r.error);
        executed := executed0 + [nid];
        turn := Broken(NodeError(nid, r.error));
      }
    }
  }

  lemma LogFailure(executed: seq<nat>, keys: set<nat>, n: nat, error: string)
    requires NoDuplicates(executed) && Elements(executed) == keys && n !in keys
    ensures Logged(executed + [n], keys, Broken(NodeError(n, error)))
  {
    AddElement(executed, n);
  }

  lemma LogOne<V>(executed: seq<nat>, data: map<nat, V>, n: nat, value: V)
    requires NoDuplicates(executed) && Elements(executed) == data.Keys && n !in data
    ensures NoDuplicates(executed + [n]) && Elements(executed + [n]) == data[n := value].Keys
  {
    AddElement(executed, n);
  }

  lemma FailureAgrees<V(!new)>(p: Program<V>, st: State<V>, rank: nat -> nat, n: nat, error: string)
    requires Links(p, st) && DataOk(p, st) && Ranked(p, rank) && n in st.nodes && n in p.kinds && Fed(p, st, n)
    requires Execute(p, n, IncomingData(p, st.live, st.data, n)) == Failure(error)
    ensures FailsInRun(p, st, rank, n, error)
  {
    InputAgreesWithRun(p, st, rank, n);
    AllAgreeWithRun(p, st, rank);
  }

  function InputSet<V>(p: Program<V>): set<nat> {
    set n | n in p.nodes && n in p.kinds && p.kinds[n].InputNode?
  }

  lemma InputsCounted<V(!new)>(p: Program<V>)
    requires WellFormed(p)
    ensures |InputNodes(p, p.nodes, p.count)| == |InputSet(p)|
  {
    var inputs := InputNodes(p, p.nodes, p.count);
    assert Elements(inputs) == InputSet(p);
    AllDifferent(inputs);
  }

  lemma {:induction false} AllDifferent(s: seq<nat>)
    requires NoDuplicates(s)
    ensures |Elements(s)| == |s|
  {
    if s != [] {
      var rest := s[..|s| - 1];
      AllDifferent(rest);
      assert s == rest + [s[|s| - 1]];
      AddElement(rest, s[|s| - 1]);
    }
  }

  /**
   Evaluates the graph. cyclic is the answer of the cycle test. The walker is
   handed back with the state it ended in; executed lists the nodes in the order
   in which their handlers ran, a failing one included. The walk gets there turn by turn.
   */
  method Evaluate<V(!new)>(p: Program<V>, g: StableGraph, cyclic: bool, iteration: nat, maxDepth: nat)
    returns (r: Outcome<V>, w: GraphWalker<V>, ghost rank: nat -> nat, ghost executed: seq<nat>)
    requires WellFormed(p) && g.edges == p.edges && g.nodes == p.nodes && g.live == AllEdges(p)
    requires cyclic <==> !Acyclic(p)
    modifies g
    ensures |InputSet(p)| != 1 ==> r == Failed(InvalidInputCount(|InputSet(p)|))
    ensures |InputSet(p)| == 1 && cyclic ==> r == Failed(CyclicGraph)
    ensures |InputSet(p)| == 1 && !cyclic && iteration >= maxDepth ==> r == Failed(DepthLimitExceeded)
    ensures |InputSet(p)| == 1 && !cyclic && iteration < maxDepth ==>
      && Ranked(p, rank) && NoDuplicates(executed)
      && (forall i :: 0 <= i < |executed| - 1 ==> !IsOutput(p, executed[i]))
      && NoDuplicates(w.visitedSwitchNodes) && w.iter <= |SwitchNodes(p)|
      && Inv(p, w.St(g)) && Trail(p, rank, g.live, w.visitedSwitchNodes)
      && match r
         case Done(v) =>
           && Leads(p, Begin(p), w.Now(g)) && Elements(executed) == w.nodeData.Keys
           && IsResult(p, rank, w.Now(g), v)
           && (|SwitchNodes(p)| < 1000 ==> Complete(p, w.St(g)) || OutputReached(p, w.St(g)))
         case Failed(e) =>
           && e.NodeError? && FailsInRun(p, w.St(g), rank, e.node, e.error)
           && HandsOut(p, Begin(p), w.Now(g), e.node) && FailsOn(p, w.Now(g), e.node, e.error)
           && Elements(executed) == w.nodeData.Keys + {e.node}
  {
    executed := [];
    rank := n => n;
    w := new GraphWalker<V>(p, g);
    var inputs := InputNodes(p, g.nodes, p.count);
    InputsCounted(p);
    if |inputs| != 1 {
      return Failed(InvalidInputCount(|inputs|)), w, rank, executed;
    }
    if cyclic {
      return Failed(CyclicGraph), w, rank, executed;
    }
    if iteration >= maxDepth {
      return Failed(DepthLimitExceeded), w, rank, executed;
    }
    rank :| Ranked(p, rank);
    BeginSteady(p, rank);
    assert Elements<nat>([]) == {};
    r, executed := Drive(p, g, w, rank);
    FewRestarts(p, rank, w.Now(g));
  }

  /** A switch has been judged, or a node more has been visited. */
  ghost predicate Advanced<V>(p: Program<V>, w: Walk<V>, w': Walk<V>) {
    || Unjudged(p, w'.order) < Unjudged(p, w.order)
    || (Unjudged(p, w'.order) == Unjudged(p, w.order) && |p.nodes - w'.st.ordered| < |p.nodes - w.st.ordered|)
  }

  /** The handler of a node handed out fails. */
  ghost predicate FailsOn<V>(p: Program<V>, w: Walk<V>, n: nat, error: string) {
    n in p.kinds && Execute(p, n, IncomingData(p, w.st.live, w.st.data, n)) == Failure(error)
  }

  predicate IsOutput<V>(p: Program<V>, n: nat) {
    n in p.kinds && p.kinds[n].OutputNode?
  }

  /** No output node has been executed, but perhaps as the last one; nor that if the evaluation goes on. */
  predicate OutputLast<V>(p: Program<V>, executed: seq<nat>, goesOn: bool) {
    forall i :: 0 <= i < |executed| && (goesOn || i < |executed| - 1) ==> !IsOutput(p, executed[i])
  }

  method NextNode<V(!new)>(p: Program<V>, g: StableGraph, w: GraphWalker<V>, ghost rank: nat -> nat)
    returns (next: Option<nat>)
    requires g.edges == p.edges && Steady(p, rank, w.Now(g))
    modifies w`iter, w`ordered, w`toVisit, w`visitedSwitchNodes, g
    ensures next.None? ==> Steady(p, rank, w.Now(g)) && Finished(p, w.St(g), w.iter)
    ensures next.Some? ==> Handed(p, rank, w.Now(g), next.value) && Advanced(p, old(w.Now(g)), w.Now(g))
    ensures next.None? ==> Leads(p, old(w.Now(g)), w.Now(g))
    ensures next.Some? ==> HandsOut(p, old(w.Now(g)), w.Now(g), next.value)
  {
    ghost var before := w.Now(g);
    next := w.Next(p, g, rank);
    if next.Some? {
      GraphLinks(p, w.St(g));
      if w.visitedSwitchNodes == before.order {
        LessLeft(p.nodes, before.st.ordered, next.value);
      }
    }
  }

  /** One turn of the loop of evaluate. */
  method DriveOnce<V(!new)>(p: Program<V>, g: StableGraph, w: GraphWalker<V>, ghost rank: nat -> nat,
      ghost executed0: seq<nat>)
    returns (turn: Turn, ghost executed: seq<nat>)
    requires g.edges == p.edges && Steady(p, rank, w.Now(g))
    requires NoDuplicates(executed0) && Elements(executed0) == w.nodeData.Keys && OutputLast(p, executed0, true)
    modifies w, g
    ensures !turn.Broken? ==> Leads(p, old(w.Now(g)), w.Now(g))
    ensures turn.Broken? ==> turn.error.NodeError? && HandsOut(p, old(w.Now(g)), w.Now(g), turn.error.node)
    ensures turn.Broken? ==> FailsOn(p, w.Now(g), turn.error.node, turn.error.error)
    ensures OutputLast(p, executed, turn.Again?)
    ensures Turned(p, rank, w.Now(g), turn)
    ensures turn.Again? ==> Advanced(p, old(w.Now(g)), w.Now(g))
    ensures Logged(executed, w.nodeData.Keys, turn)
  {
    var next := NextNode(p, g, w, rank);
    if next.None? {
      executed := executed0;
      turn := Stop;
    } else {
      ghost var handed := w.Now(g);
      turn, executed := ExecuteNode(p, g, w, next.value, rank, executed0);
      if !turn.Broken? {
        RunningLeads(p, old(w.Now(g)), handed, next.value, w.Now(g));
      }
    }
  }

  /** What an evaluation that came to an end promises of its result. */
  ghost predicate IsResult<V(!new)>(p: Program<V>, rank: nat -> nat, w: Walk<V>, v: V) {
    && FinalState(p, w.st, rank) && Trail(p, rank, w.st.live, w.order) && Finished(p, w.st, w.restarts)
    && v == EndingsIn(p, rank, Pruned(p, rank), w.st.ordered, p.count)
    && (Complete(p, w.st) ==> w.st.ordered == Part(p, Pruned(p, rank)) && v == PruneThenRun(p, rank))
  }

  lemma EndingsAreResult<V(!new)>(p: Program<V>, rank: nat -> nat, w: Walk<V>)
    requires Steady(p, rank, w) && Finished(p, w.st, w.restarts)
    ensures IsResult(p, rank, w, EndingData(p, w.st.nodes, w.st.live, w.st.ordered, w.st.data, p.count))
  {
    ResultAgreesWithRun(p, w.st, rank, w.order, p.count);
    if Complete(p, w.st) {
      CompleteVisitsPart(p, w.st, rank, w.order);
    }
  }

  /** The loop of evaluate and the merging of the endings. */
  method Drive<V(!new)>(p: Program<V>, g: StableGraph, w: GraphWalker<V>, ghost rank: nat -> nat)
    returns (r: Outcome<V>, ghost executed: seq<nat>)
    requires g.edges == p.edges && Steady(p, rank, w.Now(g)) && w.nodeData == map[]
    modifies w, g
    ensures r.Done? ==> Leads(p, old(w.Now(g)), w.Now(g))
    ensures r.Failed? ==> r.error.NodeError? && HandsOut(p, old(w.Now(g)), w.Now(g), r.error.node)
    ensures r.Failed? ==> FailsOn(p, w.Now(g), r.error.node, r.error.error)
    ensures OutputLast(p, executed, false)
    ensures WalkOk(p, rank, w.Now(g)) && NoDuplicates(executed)
    ensures r.Done? ==> IsResult(p, rank, w.Now(g), r.result) && Elements(executed) == w.nodeData.Keys
    ensures r.Failed? ==> r.error.NodeError? && FailsInRun(p, w.St(g), rank, r.error.node, r.error.error)
    ensures r.Failed? ==> Elements(executed) == w.nodeData.Keys + {r.error.node}
  {
    executed := [];
    LeadsNowhere(p, w.Now(g));
    while true
      invariant Steady(p, rank, w.Now(g))
      invariant NoDuplicates(executed) && Elements(executed) == w.nodeData.Keys && OutputLast(p, executed, true)
      invariant Leads(p, old(w.Now(g)), w.Now(g))
      decreases Unjudged(p, w.visitedSwitchNodes), |p.nodes - w.ordered|
    {
      var turn;
      ghost var before := w.Now(g);
      turn, executed := DriveOnce(p, g, w, rank, executed);
      if turn.Broken? {
        HandsOutLater(p, old(w.Now(g)), before, w.Now(g), turn.error.node);
        return Failed(turn.error), executed;
      }
      LeadsTwice(p, old(w.Now(g)), before, w.Now(g));
      if turn.Stop? {
        break;
      }
    }
    EndingsAreResult(p, rank, w.Now(g));
    r := Done(EndingData(p, g.nodes, g.live, w.ordered, w.nodeData, p.count));
  }

  lemma LessLeft(all: set<nat>, ordered: set<nat>, n: nat)
    requires n in all && n !in ordered
    ensures |all - (ordered + {n})| < |all - ordered|
  {
    assert all - ordered == (all - (ordered + {n})) + {n};
  }
}
