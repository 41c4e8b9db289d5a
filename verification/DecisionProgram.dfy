/**
 Decision graphs and what running one means: what a node is executed on, what it
 gives, which edges a switch accepts, and the evaluation of a whole graph by
 recursion.
 */
module DecisionProgram {
  import opened EdgeCascade
  import opened Wrappers

  datatype Response<+V> = Output(value: V) | Failure(error: string)

  datatype Statement = Statement(id: string, condition: string)

  datatype NodeKind =
    | InputNode
    | OutputNode
    | SwitchNode(statements: seq<Statement>, collect: bool)
    | OtherNode

  /** The foreign code a graph runs. */
  datatype Semantics<!V> = Semantics(
    emptyObject: V,
    asHead: V -> V,
    mergeClone: (V, V) -> V,
    merge: (V, V) -> V,
    condition: (string, V) -> bool,
    handler: (nat, V) -> Response<V>
  )

  /** A graph as loaded, with the request it is evaluated for. */
  datatype Program<!V> = Program(
    edges: seq<Edge>,
    count: nat,
    nodes: set<nat>,
    kinds: map<nat, NodeKind>,
    sem: Semantics<V>,
    context: V
  )

  ghost predicate WellFormed<V(!new)>(p: Program<V>) {
    && p.nodes <= p.kinds.Keys
    && (forall n :: n in p.nodes ==> n < p.count)
    && forall e :: 0 <= e < |p.edges| ==> p.edges[e].source in p.nodes && p.edges[e].target in p.nodes
  }

  /** rank numbers the nodes so that every edge goes up: the graph has no cycle. */
  ghost predicate Ranked<V(!new)>(p: Program<V>, rank: nat -> nat) {
    forall e :: 0 <= e < |p.edges| ==> rank(p.edges[e].source) < rank(p.edges[e].target)
  }

  // ---------------------------------------------------------------- what a node sees and does

  /** The data of the nodes that have any, in order. */
  function Present<V>(data: map<nat, V>, sources: seq<nat>): seq<V> {
    if sources == [] then []
    else (if sources[0] in data then [data[sources[0]]] else []) + Present(data, sources[1..])
  }

  function FoldMerge<V>(sem: Semantics<V>, acc: V, values: seq<V>): V {
    if values == [] then acc else FoldMerge(sem, sem.mergeClone(acc, values[0]), values[1..])
  }

  function MergeAll<V>(sem: Semantics<V>, values: seq<V>): V {
    if values == [] then sem.emptyObject else FoldMerge(sem, sem.asHead(values[0]), values[1..])
  }

  function Sources(edges: seq<Edge>, ids: seq<nat>): (r: seq<nat>)
    requires forall i :: 0 <= i < |ids| ==> ids[i] < |edges|
    ensures |r| == |ids| && forall i :: 0 <= i < |ids| ==> r[i] == edges[ids[i]].source
  {
    seq<nat>(|ids|, i requires 0 <= i < |ids| => edges[ids[i]].source)
  }

  function Targets(edges: seq<Edge>, ids: seq<nat>): (r: seq<nat>)
    requires forall i :: 0 <= i < |ids| ==> ids[i] < |edges|
    ensures |r| == |ids| && forall i :: 0 <= i < |ids| ==> r[i] == edges[ids[i]].target
  {
    seq<nat>(|ids|, i requires 0 <= i < |ids| => edges[ids[i]].target)
  }

  function Predecessors(edges: seq<Edge>, live: set<nat>, n: nat): seq<nat> {
    Sources(edges, InList(edges, live, n, |edges|))
  }

  function Successors(edges: seq<Edge>, live: set<nat>, n: nat): seq<nat> {
    Targets(edges, OutList(edges, live, n, |edges|))
  }

  lemma AllPredecessors(edges: seq<Edge>, live: set<nat>, n: nat)
    ensures forall u ::
      u in Predecessors(edges, live, n) <==> exists e :: e in InOf(edges, live, n) && edges[e].source == u
  {
    var ids := InList(edges, live, n, |edges|);
    forall e | e in InOf(edges, live, n)
      ensures edges[e].source in Predecessors(edges, live, n)
    {
      var i :| 0 <= i < |ids| && ids[i] == e;
      assert Sources(edges, ids)[i] == edges[e].source;
    }
  }

  lemma AllSuccessors(edges: seq<Edge>, live: set<nat>, n: nat)
    ensures forall u ::
      u in Successors(edges, live, n) <==> exists e :: e in OutOf(edges, live, n) && edges[e].target == u
  {
    var ids := OutList(edges, live, n, |edges|);
    forall e | e in OutOf(edges, live, n)
      ensures edges[e].target in Successors(edges, live, n)
    {
      var i :| 0 <= i < |ids| && ids[i] == e;
      assert Targets(edges, ids)[i] == edges[e].target;
    }
  }

  /** The merged data of the predecessors of n. */
  function IncomingData<V>(p: Program<V>, live: set<nat>, data: map<nat, V>, n: nat): V {
    MergeAll(p.sem, Present(data, Predecessors(p.edges, live, n)))
  }

  /** What executing a node gives. A switch passes its input on; the input node gets the request. */
  function Execute<V>(p: Program<V>, n: nat, input: V): Response<V>
    requires n in p.kinds
  {
    match p.kinds[n]
    case InputNode => p.sem.handler(n, p.context)
    case SwitchNode(_, _) => Output(input)
    case OutputNode => p.sem.handler(n, input)
    case OtherNode => p.sem.handler(n, input)
  }

  predicate Holds<V>(sem: Semantics<V>, s: Statement, input: V) {
    s.condition == "" || sem.condition(s.condition, input)
  }

  /** The statements that hold: under the first-hit policy only the first of them. */
  function ValidStatements<V>(sem: Semantics<V>, statements: seq<Statement>, collect: bool, input: V): seq<Statement> {
    if statements == [] then []
    else if Holds(sem, statements[0], input) then
      [statements[0]] + if collect then ValidStatements(sem, statements[1..], collect, input) else []
    else ValidStatements(sem, statements[1..], collect, input)
  }

  /** Whether an out-edge of a switch survives the switch's decision on the input. */
  predicate Accepts<V>(sem: Semantics<V>, kind: NodeKind, input: V, handle: Option<string>)
    requires kind.SwitchNode?
  {
    && handle.Some?
    && exists s :: s in ValidStatements(sem, kind.statements, kind.collect, input) && s.id == handle.value
  }

  // ---------------------------------------------------------------- what these definitions promise

  /** The statement at i is the first that holds; if there is none i is the number of statements. */
  lemma {:induction false} FirstValid<V>(sem: Semantics<V>, statements: seq<Statement>, input: V) returns (i: nat)
    ensures i <= |statements| && forall j :: 0 <= j < i ==> !Holds(sem, statements[j], input)
    ensures i < |statements| ==>
      Holds(sem, statements[i], input) && ValidStatements(sem, statements, false, input) == [statements[i]]
    ensures i == |statements| ==> ValidStatements(sem, statements, false, input) == []
  {
    i := 0;
    if statements != [] && !Holds(sem, statements[0], input) {
      i := FirstValid(sem, statements[1..], input);
      i := i + 1;
    }
  }

  lemma {:induction false} AllValid<V>(sem: Semantics<V>, statements: seq<Statement>, input: V)
    ensures forall s :: s in ValidStatements(sem, statements, true, input) <==>
      s in statements && Holds(sem, s, input)
  {
    if statements != [] {
      AllValid(sem, statements[1..], input);
    }
  }

  /**
   A first-hit switch accepts the handle of the first statement whose condition is empty
   or true on the input, and no other; a collect switch accepts the handles of all of
   them; no switch accepts an edge without a handle.
   */
  lemma AcceptsExactly<V>(sem: Semantics<V>, statements: seq<Statement>, input: V, handle: string)
    ensures Accepts(sem, SwitchNode(statements, false), input, Some(handle)) <==>
      exists i ::
        && 0 <= i < |statements| && statements[i].id == handle
        && (statements[i].condition == "" || sem.condition(statements[i].condition, input))
        && forall j :: 0 <= j < i ==> statements[j].condition != "" && !sem.condition(statements[j].condition, input)
    ensures Accepts(sem, SwitchNode(statements, true), input, Some(handle)) <==>
      exists i :: 0 <= i < |statements| && statements[i].id == handle &&
        (statements[i].condition == "" || sem.condition(statements[i].condition, input))
    ensures !Accepts(sem, SwitchNode(statements, false), input, None)
    ensures !Accepts(sem, SwitchNode(statements, true), input, None)
  {
    var first := FirstValid(sem, statements, input);
    AllValid(sem, statements, input);
  }

  /** The values of several predecessors are merged one after the other; the first one is the head. */
  lemma {:induction false} MergeAllExactly<V>(sem: Semantics<V>, values: seq<V>, value: V)
    ensures MergeAll(sem, []) == sem.emptyObject
    ensures values == [] ==> MergeAll(sem, values + [value]) == sem.asHead(value)
    ensures values != [] ==> MergeAll(sem, values + [value]) == sem.mergeClone(MergeAll(sem, values), value)
  {
    if values != [] {
      assert (values + [value])[1..] == values[1..] + [value];
      FoldMergeLast(sem, sem.asHead(values[0]), values[1..], value);
    }
  }

  lemma {:induction false} FoldMergeLast<V>(sem: Semantics<V>, acc: V, values: seq<V>, value: V)
    ensures FoldMerge(sem, acc, values + [value]) == sem.mergeClone(FoldMerge(sem, acc, values), value)
  {
    if values == [] {
      assert FoldMerge(sem, sem.mergeClone(acc, value), []) == sem.mergeClone(acc, value);
    } else {
      assert (values + [value])[1..] == values[1..] + [value];
      FoldMergeLast(sem, sem.mergeClone(acc, values[0]), values[1..], value);
    }
  }

  /** The values present are those of the sources that have data, in their order. */
  lemma PresentExactly<V>(data: map<nat, V>, sources: seq<nat>, u: nat)
    ensures Present(data, []) == []
    ensures u in data ==> Present(data, sources + [u]) == Present(data, sources) + [data[u]]
    ensures u !in data ==> Present(data, sources + [u]) == Present(data, sources)
  {
    PresentBoth(data, sources, [u]);
    PresentOne(data, u);
  }

  lemma PresentOne<V>(data: map<nat, V>, u: nat)
    ensures Present(data, [u]) == if u in data then [data[u]] else []
  {
    assert [u][1..] == [];
    assert Present(data, [u][1..]) == [];
  }

  lemma {:induction false} PresentBoth<V>(data: map<nat, V>, sources: seq<nat>, more: seq<nat>)
    ensures Present(data, sources + more) == Present(data, sources) + Present(data, more)
  {
    if sources == [] {
      assert sources + more == more;
    } else {
      assert (sources + more)[1..] == sources[1..] + more;
      PresentBoth(data, sources[1..], more);
    }
  }

  /** The predecessors of a node are the sources of the edges into it, the latest edge first. */
  lemma PredecessorsExactly(edges: seq<Edge>, live: set<nat>, n: nat) returns (ids: seq<nat>)
    ensures |ids| == |Predecessors(edges, live, n)|
    ensures forall i :: 0 <= i < |ids| ==> ids[i] < |edges| && Predecessors(edges, live, n)[i] == edges[ids[i]].source
    ensures forall i, j :: 0 <= i < j < |ids| ==> ids[i] > ids[j]
    ensures forall e: nat :: e in ids <==> e in live && e < |edges| && edges[e].target == n
  {
    ids := InList(edges, live, n, |edges|);
  }

  /** The successors of a node are the targets of the edges out of it, the latest edge first. */
  lemma SuccessorsExactly(edges: seq<Edge>, live: set<nat>, n: nat) returns (ids: seq<nat>)
    ensures |ids| == |Successors(edges, live, n)|
    ensures forall i :: 0 <= i < |ids| ==> ids[i] < |edges| && Successors(edges, live, n)[i] == edges[ids[i]].target
    ensures forall i, j :: 0 <= i < j < |ids| ==> ids[i] > ids[j]
    ensures forall e: nat :: e in ids <==> e in live && e < |edges| && edges[e].source == n
  {
    ids := OutList(edges, live, n, |edges|);
  }

  // ---------------------------------------------------------------- the predecessors depend on the in-edges only

  lemma {:induction false} InListSame(edges: seq<Edge>, live: set<nat>, live': set<nat>, n: nat, k: nat)
    requires k <= |edges| && InOf(edges, live, n) == InOf(edges, live', n)
    ensures InList(edges, live, n, k) == InList(edges, live', n, k)
  {
    if k > 0 {
      InListSame(edges, live, live', n, k - 1);
      assert k - 1 in InOf(edges, live, n) <==> k - 1 in InOf(edges, live', n);
    }
  }

  // ---------------------------------------------------------------- running a graph once

  /** Recursive evaluation of the graph with the given live edges: no walk, no restart, no switch decisions. */
  ghost function Run<V(!new)>(p: Program<V>, live: set<nat>, rank: nat -> nat, n: nat): Option<V>
    decreases rank(n), 1, 0
  {
    if n !in p.kinds then None
    else
      match RunAll(p, live, rank, rank(n), Predecessors(p.edges, live, n))
      case None => None
      case Some(values) =>
        match Execute(p, n, MergeAll(p.sem, values))
        case Output(v) => Some(v)
        case Failure(_) => None
  }

  /** The results of nodes below the bound, as long as all have one. */
  ghost function RunAll<V(!new)>(p: Program<V>, live: set<nat>, rank: nat -> nat, bound: nat,
      nodes: seq<nat>): Option<seq<V>>
    decreases bound, 0, |nodes|
  {
    if nodes == [] then Some([])
    else if rank(nodes[0]) >= bound then None
    else
      var first, rest := Run(p, live, rank, nodes[0]), RunAll(p, live, rank, bound, nodes[1..]);
      if first.Some? && rest.Some? then Some([first.value] + rest.value) else None
  }

  lemma {:induction false} RunAllExactly<V(!new)>(p: Program<V>, live: set<nat>, rank: nat -> nat, bound: nat,
      nodes: seq<nat>, values: seq<V>)
    ensures RunAll(p, live, rank, bound, nodes) == Some(values) <==>
      |values| == |nodes| && forall i :: 0 <= i < |nodes| ==>
        rank(nodes[i]) < bound && Run(p, live, rank, nodes[i]) == Some(values[i])
  {
    if nodes != [] && values != [] {
      RunAllExactly(p, live, rank, bound, nodes[1..], values[1..]);
      assert nodes == [nodes[0]] + nodes[1..] && values == [values[0]] + values[1..];
    }
  }

  /** A run gives a node what executing it on the merged results of its predecessors gives. */
  lemma RunExactly<V(!new)>(p: Program<V>, live: set<nat>, rank: nat -> nat, n: nat, values: seq<V>)
    requires n in p.kinds && |values| == |Predecessors(p.edges, live, n)|
    requires forall i :: 0 <= i < |values| ==>
      && rank(Predecessors(p.edges, live, n)[i]) < rank(n)
      && Run(p, live, rank, Predecessors(p.edges, live, n)[i]) == Some(values[i])
    ensures p.kinds[n].InputNode? ==> Result(p.sem.handler(n, p.context)) == Run(p, live, rank, n)
    ensures p.kinds[n].SwitchNode? ==> Run(p, live, rank, n) == Some(MergeAll(p.sem, values))
    ensures p.kinds[n].OutputNode? || p.kinds[n].OtherNode? ==>
      Result(p.sem.handler(n, MergeAll(p.sem, values))) == Run(p, live, rank, n)
  {
    RunAllExactly(p, live, rank, rank(n), Predecessors(p.edges, live, n), values);
  }

  function Result<V>(r: Response<V>): Option<V> {
    match r
    case Output(v) => Some(v)
    case Failure(_) => None
  }

  lemma {:induction false} RunAllPresent<V(!new)>(p: Program<V>, live: set<nat>, rank: nat -> nat, bound: nat,
      data: map<nat, V>, nodes: seq<nat>)
    requires forall u :: u in nodes ==> u in data && rank(u) < bound && Run(p, live, rank, u) == Some(data[u])
    ensures RunAll(p, live, rank, bound, nodes) == Some(Present(data, nodes))
  {
    if nodes != [] {
      assert nodes[0] in nodes && forall u :: u in nodes[1..] ==> u in nodes;
      RunAllPresent(p, live, rank, bound, data, nodes[1..]);
    }
  }
}
