/**
 What a walk of the decision graph keeps true: nodes hold what their current
 predecessors give them, and the switches judged so far, in the order in which they
 were judged, lead from the loaded graph to the edges that are left.
 */
module DecisionWalk {
  import opened EdgeCascade
  import opened Wrappers
  import opened CascadeLocality
  import opened DecisionProgram
  import opened PrunedGraph
  import opened PruningOrder
  import opened PrunedResult

  // ---------------------------------------------------------------- the state of a walk

  datatype State<+V> = State(
    nodes: set<nat>,
    live: set<nat>,
    data: map<nat, V>,
    ordered: set<nat>,
    evaluated: set<nat>
  )

  /** The predecessors of n all have data. */
  predicate Fed<V>(p: Program<V>, st: State<V>, n: nat) {
    forall e :: e in InOf(p.edges, st.live, n) ==> p.edges[e].source in st.data
  }

  /**
   The nodes that are gone are those that have lost all their in-edges or all their
   out-edges; the others keep the edges.
   */
  ghost predicate GraphOk<V>(p: Program<V>, st: State<V>) {
    st.nodes == NodesOf(p, st.live) && Connects(p, st.live)
  }

  /** The visited nodes hang together with the input nodes and come with their predecessors. */
  ghost predicate OrderedOk<V>(p: Program<V>, st: State<V>) {
    && st.ordered <= Part(p, st.live)
    && forall e :: e in st.live && e < |p.edges| && p.edges[e].target in st.ordered ==> p.edges[e].source in st.ordered
  }

  /** A surviving node with data holds what executing it on its current predecessors gives. */
  ghost predicate DataOk<V>(p: Program<V>, st: State<V>) {
    && st.data.Keys <= p.nodes <= p.kinds.Keys
    && forall n :: n in st.data && n in st.nodes ==>
      && Fed(p, st, n)
      && Execute(p, n, IncomingData(p, st.live, st.data, n)) == Output(st.data[n])
      && (p.kinds[n].SwitchNode? ==> n in st.evaluated)
  }

  /** A surviving switch that has been judged has its input. */
  ghost predicate SwitchesOk<V>(p: Program<V>, st: State<V>) {
    && st.evaluated <= p.nodes <= p.kinds.Keys
    && (forall s :: s in st.evaluated ==> p.kinds[s].SwitchNode?)
    && (forall s :: s in st.evaluated && s in st.nodes ==> Fed(p, st, s))
  }

  /**
   The data of a node that is left: the input node has what its handler gave for the
   request, a switch what its predecessors gave, any other node what its handler gave
   for that.
   */
  lemma NodeDataExactly<V>(p: Program<V>, st: State<V>, n: nat)
    requires DataOk(p, st) && n in st.data && n in st.nodes
    ensures n in p.kinds
    ensures forall e :: e in st.live && e < |p.edges| && p.edges[e].target == n ==> p.edges[e].source in st.data
    ensures var input := MergeAll(p.sem, Present(st.data, Predecessors(p.edges, st.live, n)));
      match p.kinds[n]
      case InputNode => p.sem.handler(n, p.context) == Output(st.data[n])
      case SwitchNode(_, _) => st.data[n] == input
      case OutputNode => p.sem.handler(n, input) == Output(st.data[n])
      case OtherNode => p.sem.handler(n, input) == Output(st.data[n])
  {
    forall e | e in st.live && e < |p.edges| && p.edges[e].target == n
      ensures p.edges[e].source in st.data
    {
      assert e in InOf(p.edges, st.live, n);
    }
  }

  ghost predicate Inv<V(!new)>(p: Program<V>, st: State<V>) {
    && WellFormed(p)
    && GraphOk(p, st)
    && OrderedOk(p, st)
    && DataOk(p, st)
    && SwitchesOk(p, st)
  }

  /**
   The switches could be judged in this order, each on what a single run of the
   edges left at its turn gives it, and that leaves exactly the live edges.
   */
  ghost predicate Trail<V(!new)>(p: Program<V>, rank: nat -> nat, live: set<nat>, order: seq<nat>) {
    Ranked(p, rank) && Legal(p, rank, First(p), order) && End(p, rank, First(p), order).live == live
  }

  // ---------------------------------------------------------------- the input of a node depends on its in-edges only

  lemma {:induction false} PresentSame<V>(data: map<nat, V>, data': map<nat, V>, sources: seq<nat>)
    requires forall u :: u in sources ==> u in data && u in data' && data[u] == data'[u]
    ensures Present(data, sources) == Present(data', sources)
  {
    if sources != [] {
      PresentSame(data, data', sources[1..]);
    }
  }

  lemma IncomingSame<V>(p: Program<V>, st: State<V>, st': State<V>, n: nat)
    requires InOf(p.edges, st.live, n) == InOf(p.edges, st'.live, n)
    requires Fed(p, st, n) && forall u :: u in st.data ==> u in st'.data && st.data[u] == st'.data[u]
    ensures Fed(p, st', n)
    ensures IncomingData(p, st.live, st.data, n) == IncomingData(p, st'.live, st'.data, n)
  {
    AllPredecessors(p.edges, st.live, n);
    InListSame(p.edges, st.live, st'.live, n, |p.edges|);
    PresentSame(st.data, st'.data, Predecessors(p.edges, st.live, n));
  }

  // ---------------------------------------------------------------- the steps of a walk

  /** Nodes that have data or have been judged as a switch, and are still there. */
  function SettledNodes<V>(st: State<V>): set<nat> {
    (st.data.Keys + st.evaluated) * st.nodes
  }

  function Start<V>(p: Program<V>): State<V> {
    State(p.nodes, AllEdges(p), map[], {}, {})
  }

  lemma StartOk<V(!new)>(p: Program<V>)
    requires WellFormed(p)
    ensures Inv(p, Start(p))
  {
  }

  /** The remaining edges connect remaining nodes. */
  predicate Links<V>(p: Program<V>, st: State<V>) {
    forall e :: e in st.live ==> e < |p.edges| && p.edges[e].source in st.nodes && p.edges[e].target in st.nodes
  }

  lemma GraphLinks<V>(p: Program<V>, st: State<V>)
    requires GraphOk(p, st)
    ensures Links(p, st) && st.nodes <= p.nodes && st.live <= AllEdges(p)
  {
  }

  /** A node is visited when its predecessors have been. */
  lemma VisitOk<V(!new)>(p: Program<V>, st: State<V>, n: nat)
    requires Inv(p, st) && n in Part(p, st.live)
    requires forall e :: e in InOf(p.edges, st.live, n) ==> p.edges[e].source in st.ordered
    ensures Inv(p, st.(ordered := st.ordered + {n}))
  {
    var st' := st.(ordered := st.ordered + {n});
    forall e | e in st'.live && e < |p.edges| && p.edges[e].target in st'.ordered
      ensures p.edges[e].source in st'.ordered
    {
      if p.edges[e].target == n {
        assert e in InOf(p.edges, st.live, n);
      }
    }
    SameFed(p, st, st');
  }

  lemma SameFed<V(!new)>(p: Program<V>, st: State<V>, st': State<V>)
    requires st' == st.(ordered := st'.ordered)
    ensures DataOk(p, st) ==> DataOk(p, st')
    ensures SwitchesOk(p, st) ==> SwitchesOk(p, st')
  {
    forall n
      ensures Fed(p, st, n) == Fed(p, st', n)
    {
    }
  }

  /** A result added for n does not change the input of nodes whose predecessors had data. */
  lemma SameInput<V>(p: Program<V>, st: State<V>, n: nat, v: V, m: nat)
    requires n !in st.data && Fed(p, st, m)
    ensures Fed(p, st.(data := st.data[n := v]), m)
    ensures IncomingData(p, st.live, st.data[n := v], m) == IncomingData(p, st.live, st.data, m)
  {
    IncomingSame(p, st, st.(data := st.data[n := v]), m);
  }

  lemma SetDataKeepsData<V>(p: Program<V>, st: State<V>, n: nat, v: V)
    requires DataOk(p, st) && n in p.nodes && n !in st.data && Fed(p, st, n)
    requires Execute(p, n, IncomingData(p, st.live, st.data, n)) == Output(v)
    requires p.kinds[n].SwitchNode? ==> n in st.evaluated
    ensures DataOk(p, st.(data := st.data[n := v]))
  {
    var st' := st.(data := st.data[n := v]);
    forall m | m in st'.data && m in st'.nodes
      ensures Fed(p, st', m)
      ensures Execute(p, m, IncomingData(p, st'.live, st'.data, m)) == Output(st'.data[m])
      ensures p.kinds[m].SwitchNode? ==> m in st'.evaluated
    {
      SameInput(p, st, n, v, m);
    }
  }

  lemma SetDataKeepsSwitches<V>(p: Program<V>, st: State<V>, n: nat, v: V)
    requires SwitchesOk(p, st) && n !in st.data
    ensures SwitchesOk(p, st.(data := st.data[n := v]))
  {
    forall s | s in st.evaluated && s in st.nodes
      ensures Fed(p, st.(data := st.data[n := v]), s)
    {
      SameInput(p, st, n, v, s);
    }
  }

  /** A node gets its data, once. */
  lemma SetDataOk<V(!new)>(p: Program<V>, st: State<V>, n: nat, v: V)
    requires Inv(p, st) && n in st.nodes && n !in st.data && Fed(p, st, n)
    requires Execute(p, n, IncomingData(p, st.live, st.data, n)) == Output(v)
    requires p.kinds[n].SwitchNode? ==> n in st.evaluated
    ensures Inv(p, st.(data := st.data[n := v]))
  {
    GraphLinks(p, st);
    SetDataKeepsData(p, st, n, v);
    SetDataKeepsSwitches(p, st, n, v);
  }

  // ---------------------------------------------------------------- judging a switch

  /** The live out-edges of s that the switch s does not accept. */
  function RejectedBy<V>(p: Program<V>, st: State<V>, s: nat): set<nat>
    requires IsSwitch(p, s)
  {
    set e | e in OutOf(p.edges, st.live, s) &&
            !Accepts(p.sem, p.kinds[s], IncomingData(p, st.live, st.data, s), p.edges[e].handle)
  }

  /** The state after the switch s has been judged. */
  function Judged<V>(st: State<V>, s: nat, live': set<nat>, nodes': set<nat>): State<V> {
    State(nodes', live', st.data, {}, st.evaluated + {s})
  }

  ghost predicate PrunedTo<V>(p: Program<V>, st: State<V>, rejected: set<nat>, live': set<nat>, nodes': set<nat>) {
    && live' == st.live - Cascade(p.edges, st.live, rejected)
    && nodes' == st.nodes - Lost(p.edges, st.nodes, st.live, live')
  }

  /** The switch s has its input and has not been judged. */
  ghost predicate Judgeable<V(!new)>(p: Program<V>, st: State<V>, rank: nat -> nat, s: nat) {
    && Links(p, st) && DataOk(p, st) && SwitchesOk(p, st) && Ranked(p, rank)
    && s in st.nodes && s in p.nodes && IsSwitch(p, s) && s !in st.evaluated && Fed(p, st, s)
  }

  lemma GraphPruned<V(!new)>(p: Program<V>, st: State<V>, rejected: set<nat>, live': set<nat>, nodes': set<nat>)
    requires GraphOk(p, st) && rejected <= st.live && PrunedTo(p, st, rejected, live', nodes')
    ensures nodes' == NodesOf(p, live') && Connects(p, live')
  {
    ConnectsAfter(p, st.live, rejected);
    forall v
      ensures v in NodesOf(p, live') <==> v in NodesOf(p, st.live) && !LostSide(p.edges, st.live, live', v)
    {
      NodesAfter(p, st.live, live', v);
    }
  }

  lemma SettledClosed<V(!new)>(p: Program<V>, st: State<V>, rank: nat -> nat, s: nat)
    requires Judgeable(p, st, rank, s)
    ensures Outward(p.edges, st.live, SettledNodes(st) + {s}, RejectedBy(p, st, s))
  {
    var X := SettledNodes(st) + {s};
    forall e | e in st.live && p.edges[e].target in X
      ensures p.edges[e].source in SettledNodes(st)
    {
      assert Fed(p, st, p.edges[e].target);
      assert e in InOf(p.edges, st.live, p.edges[e].target);
    }
    assert s !in st.data;
  }

  /** Settled nodes that survive the pruning see the same data as before. */
  lemma SettledSeeSame<V(!new)>(p: Program<V>, st: State<V>, rank: nat -> nat, s: nat, live': set<nat>,
      nodes': set<nat>, n: nat)
    requires Judgeable(p, st, rank, s) && PrunedTo(p, st, RejectedBy(p, st, s), live', nodes')
    requires n in SettledNodes(st) + {s} && n in nodes'
    ensures Fed(p, Judged(st, s, live', nodes'), n)
    ensures IncomingData(p, st.live, st.data, n) == IncomingData(p, live', st.data, n)
  {
    SettledClosed(p, st, rank, s);
    SettledKeepInEdges(p.edges, st.live, SettledNodes(st) + {s}, RejectedBy(p, st, s), n);
    IncomingSame(p, st, Judged(st, s, live', nodes'), n);
  }

  lemma JudgedDataOk<V(!new)>(p: Program<V>, st: State<V>, rank: nat -> nat, s: nat, live': set<nat>, nodes': set<nat>)
    requires Judgeable(p, st, rank, s) && PrunedTo(p, st, RejectedBy(p, st, s), live', nodes')
    ensures DataOk(p, Judged(st, s, live', nodes')) && SwitchesOk(p, Judged(st, s, live', nodes'))
  {
    forall n | n in nodes' && (n in st.data || n in st.evaluated + {s})
      ensures Fed(p, Judged(st, s, live', nodes'), n)
      ensures IncomingData(p, st.live, st.data, n) == IncomingData(p, live', st.data, n)
    {
      SettledSeeSame(p, st, rank, s, live', nodes', n);
    }
  }

  /** Judging a switch and pruning keeps the invariant. */
  lemma JudgedOk<V(!new)>(p: Program<V>, st: State<V>, rank: nat -> nat, s: nat, live': set<nat>, nodes': set<nat>)
    requires Inv(p, st) && Ranked(p, rank) && Fed(p, st, s)
    requires s in st.nodes && IsSwitch(p, s) && s !in st.evaluated
    requires PrunedTo(p, st, RejectedBy(p, st, s), live', nodes')
    ensures Inv(p, Judged(st, s, live', nodes'))
  {
    GraphLinks(p, st);
    GraphPruned(p, st, RejectedBy(p, st, s), live', nodes');
    JudgedDataOk(p, st, rank, s, live', nodes');
  }

  // ---------------------------------------------------------------- a walk computes what a single run computes

  lemma PredecessorFacts<V(!new)>(p: Program<V>, st: State<V>, rank: nat -> nat, n: nat, u: nat)
    requires Links(p, st) && Ranked(p, rank) && Fed(p, st, n) && u in Predecessors(p.edges, st.live, n)
    ensures u in st.nodes && u in st.data && rank(u) < rank(n)
  {
    AllPredecessors(p.edges, st.live, n);
    var e :| e in InOf(p.edges, st.live, n) && p.edges[e].source == u;
  }

  /** What the walk has computed for a surviving node is what running the remaining graph once computes. */
  lemma {:induction false} WalkAgreesWithRun<V(!new)>(p: Program<V>, st: State<V>, rank: nat -> nat, n: nat)
    requires Links(p, st) && DataOk(p, st) && Ranked(p, rank) && n in st.data && n in st.nodes
    ensures Run(p, st.live, rank, n) == Some(st.data[n])
    decreases rank(n)
  {
    assert Fed(p, st, n);
    InputAgreesWithRun(p, st, rank, n);
  }

  /** The same for a node that is about to be executed: its input and its result are those of the single run. */
  lemma {:induction false} InputAgreesWithRun<V(!new)>(p: Program<V>, st: State<V>, rank: nat -> nat, n: nat)
    requires Links(p, st) && DataOk(p, st) && Ranked(p, rank) && n in st.nodes && n in p.kinds && Fed(p, st, n)
    ensures InputOf(p, rank, st.live, n) == Some(IncomingData(p, st.live, st.data, n))
    ensures Run(p, st.live, rank, n) ==
      match Execute(p, n, IncomingData(p, st.live, st.data, n)) { case Output(v) => Some(v) case Failure(_) => None }
    decreases rank(n), 0
  {
    var sources := Predecessors(p.edges, st.live, n);
    forall u | u in sources
      ensures u in st.data && rank(u) < rank(n) && Run(p, st.live, rank, u) == Some(st.data[u])
    {
      PredecessorFacts(p, st, rank, n, u);
      WalkAgreesWithRun(p, st, rank, u);
    }
    RunAllPresent(p, st.live, rank, rank(n), st.data, sources);
  }

  ghost predicate AgreesWithRun<V(!new)>(p: Program<V>, st: State<V>, rank: nat -> nat) {
    forall n :: n in st.data && n in st.nodes ==> Run(p, st.live, rank, n) == Some(st.data[n])
  }

  lemma AllAgreeWithRun<V(!new)>(p: Program<V>, st: State<V>, rank: nat -> nat)
    requires Links(p, st) && DataOk(p, st) && Ranked(p, rank)
    ensures AgreesWithRun(p, st, rank)
  {
    forall n | n in st.data && n in st.nodes
      ensures Run(p, st.live, rank, n) == Some(st.data[n])
    {
      WalkAgreesWithRun(p, st, rank, n);
    }
  }

  // ---------------------------------------------------------------- a walk judges in a legal order

  /** Above a node whose predecessors have data every switch has been judged. */
  lemma {:induction false} FedIsGrounded<V(!new)>(p: Program<V>, st: State<V>, rank: nat -> nat, n: nat)
    requires Links(p, st) && DataOk(p, st) && Ranked(p, rank) && Fed(p, st, n)
    ensures Grounded(p, rank, st.live, st.evaluated, n)
    decreases rank(n)
  {
    forall e | e in InOf(p.edges, st.live, n)
      ensures Grounded(p, rank, st.live, st.evaluated, p.edges[e].source)
      ensures IsSwitch(p, p.edges[e].source) ==> p.edges[e].source in st.evaluated
    {
      FedIsGrounded(p, st, rank, p.edges[e].source);
    }
  }

  /** A switch that has its input can be judged next, and what it rejects is what it rejects in a single run. */
  lemma JudgeableIsReady<V(!new)>(p: Program<V>, st: State<V>, rank: nat -> nat, s: nat)
    requires Judgeable(p, st, rank, s) && st.nodes == NodesOf(p, st.live)
    ensures CanJudge(p, rank, st.live, st.evaluated, s) && Rejects(p, rank, st.live, s) == RejectedBy(p, st, s)
  {
    FedIsGrounded(p, st, rank, s);
    InputAgreesWithRun(p, st, rank, s);
  }

  lemma TrailEnd<V(!new)>(p: Program<V>, rank: nat -> nat, live: set<nat>, order: seq<nat>)
    requires Trail(p, rank, live, order)
    ensures End(p, rank, First(p), order) == Stage(live, Elements(order))
  {
    JudgedInOrder(p, rank, First(p), order);
  }

  lemma TrailGrows<V(!new)>(p: Program<V>, st: State<V>, rank: nat -> nat, order: seq<nat>, s: nat)
    requires Judgeable(p, st, rank, s) && st.nodes == NodesOf(p, st.live)
    requires Trail(p, rank, st.live, order) && st.evaluated == Elements(order)
    ensures Trail(p, rank, st.live - Cascade(p.edges, st.live, RejectedBy(p, st, s)), order + [s])
  {
    JudgeableIsReady(p, st, rank, s);
    TrailEnd(p, rank, st.live, order);
    LegalAppend(p, rank, First(p), order, s);
  }

  // ---------------------------------------------------------------- the result of a walk

  /** Whether n is one of the visited nodes without successors. */
  predicate IsVisitedEnd(edges: seq<Edge>, nodes: set<nat>, live: set<nat>, ordered: set<nat>, n: nat) {
    n in nodes && n in ordered && OutOf(edges, live, n) == {}
  }

  /** The merged data of the endings among the first k nodes. */
  function EndingData<V>(p: Program<V>, nodes: set<nat>, live: set<nat>, ordered: set<nat>, data: map<nat, V>,
      k: nat): V {
    if k == 0 then p.sem.emptyObject
    else
      var acc := EndingData(p, nodes, live, ordered, data, k - 1);
      if IsVisitedEnd(p.edges, nodes, live, ordered, k - 1) && k - 1 in data then p.sem.merge(acc, data[k - 1]) else acc
  }

  lemma {:induction false} EndingsAgree<V(!new)>(p: Program<V>, st: State<V>, rank: nat -> nat, k: nat)
    requires AgreesWithRun(p, st, rank) && st.ordered <= st.data.Keys && st.nodes == NodesOf(p, st.live)
    ensures EndingData(p, st.nodes, st.live, st.ordered, st.data, k) == EndingsIn(p, rank, st.live, st.ordered, k)
  {
    if k > 0 {
      EndingsAgree(p, st, rank, k - 1);
    }
  }

  /** What the walk has judged so far is all that its visited nodes depend on. */
  lemma VisitedGrounded<V(!new)>(p: Program<V>, st: State<V>, rank: nat -> nat)
    requires Links(p, st) && DataOk(p, st) && Ranked(p, rank) && st.ordered <= st.data.Keys && st.ordered <= st.nodes
    ensures forall n :: n in st.ordered ==> Grounded(p, rank, st.live, st.evaluated, n)
  {
    forall n | n in st.ordered
      ensures Grounded(p, rank, st.live, st.evaluated, n)
    {
      FedIsGrounded(p, st, rank, n);
    }
  }

  /**
   The result of a walk, wherever it stops, is what running the pruned graph once
   gives on the endings the walk has visited: switches it has not come to would not
   change them.
   */
  lemma ResultAgreesWithRun<V(!new)>(p: Program<V>, st: State<V>, rank: nat -> nat, order: seq<nat>, k: nat)
    requires Inv(p, st) && Trail(p, rank, st.live, order) && st.evaluated == Elements(order)
    requires st.ordered <= st.data.Keys
    ensures AgreesWithRun(p, st, rank)
    ensures EndingData(p, st.nodes, st.live, st.ordered, st.data, k) ==
      EndingsIn(p, rank, Pruned(p, rank), st.ordered, k)
  {
    GraphLinks(p, st);
    AllAgreeWithRun(p, st, rank);
    EndingsAgree(p, st, rank, k);
    VisitedGrounded(p, st, rank);
    TrailEnd(p, rank, st.live, order);
    EndingsOfPruned(p, rank, order, st.ordered, k);
  }

  /** When nothing waits any more, exactly the nodes that hang together with the input nodes have been visited. */
  lemma AllVisited<V(!new)>(p: Program<V>, st: State<V>)
    requires Inv(p, st)
    requires forall n :: n in st.nodes && IsInput(p, n) ==> n in st.ordered
    requires forall e ::
      e in st.live && e < |p.edges| && p.edges[e].source in st.ordered ==> p.edges[e].target in st.ordered
    ensures st.ordered == Part(p, st.live)
  {
    PartLeast(p, st.live, st.ordered);
  }

  /** Then the walk has pruned what hangs together with the input nodes to what it is in the pruned graph. */
  lemma VisitedIsPruned<V(!new)>(p: Program<V>, st: State<V>, rank: nat -> nat, order: seq<nat>)
    requires Inv(p, st) && Trail(p, rank, st.live, order) && st.evaluated == Elements(order)
    requires st.ordered == Part(p, st.live) && st.ordered <= st.data.Keys
    ensures st.ordered == Part(p, Pruned(p, rank))
  {
    PartOfPruned(p, rank, order);
  }

  /** Pruning makes no new ends: a surviving node that had in-edges or out-edges still has some. */
  lemma NoNewEnds<V(!new)>(p: Program<V>, st: State<V>, n: nat)
    requires GraphOk(p, st) && n in st.nodes
    ensures InOf(p.edges, AllEdges(p), n) != {} ==> InOf(p.edges, st.live, n) != {}
    ensures OutOf(p.edges, AllEdges(p), n) != {} ==> OutOf(p.edges, st.live, n) != {}
  {
    assert !LostSide(p.edges, AllEdges(p), st.live, n);
  }
}
