/**
 The decision graph walker and the evaluation loop that drives it: take a node
 off the stack, visit it after its predecessors, judge a switch once and start
 over on the pruned graph, and keep the node results across restarts.
 */
module GraphWalker {
  import opened EdgeCascade
  import opened Wrappers
  import opened DecisionProgram
  import opened PrunedGraph
  import opened PrunedResult
  import opened DecisionWalk

  const ITER_MAX: nat := 1000

  // ---------------------------------------------------------------- the stack of pending nodes

  /** The surviving input nodes in index order. */
  function InputNodes<V>(p: Program<V>, nodes: set<nat>, k: nat): (r: seq<nat>)
    ensures forall n :: n in r <==> n < k && n in nodes && IsInput(p, n)
    ensures forall i :: 0 <= i < |r| ==> r[i] < k
    ensures forall i, j :: 0 <= i < j < |r| ==> r[i] < r[j]
  {
    if k == 0 then []
    else
      var rest := InputNodes(p, nodes, k - 1);
      if k - 1 in nodes && IsInput(p, k - 1) then rest + [k - 1] else rest
  }

  /**
   Nothing is forgotten: input nodes and successors of visited nodes are visited or on
   the stack. Nothing is on the stack that does not hang together with an input node.
   */
  ghost predicate Waiting<V>(p: Program<V>, st: State<V>, stack: seq<nat>) {
    && (forall n :: n in stack ==> n in Part(p, st.live))
    && (forall n :: n in st.nodes && IsInput(p, n) ==> n in st.ordered || n in stack)
    && (forall e :: e in st.live && e < |p.edges| && p.edges[e].source in st.ordered ==>
          p.edges[e].target in st.ordered || p.edges[e].target in stack)
  }

  /** Every input node is visited, and with a node its successors and predecessors. */
  ghost predicate Complete<V>(p: Program<V>, st: State<V>) {
    Waiting(p, st, [])
  }

  function Phase(stack: seq<nat>, ordered: set<nat>): nat {
    if stack != [] && stack[|stack| - 1] in ordered then 1 else 0
  }

  ghost function Work(stack: seq<nat>, ordered: set<nat>, rank: nat -> nat): nat {
    if stack == [] then 0
    else if stack[|stack| - 1] in ordered then |stack|
    else rank(stack[|stack| - 1])
  }

  ghost predicate LessWork(before: seq<nat>, after: seq<nat>, ordered: set<nat>, rank: nat -> nat) {
    || Phase(after, ordered) < Phase(before, ordered)
    || (Phase(after, ordered) == Phase(before, ordered) && Work(after, ordered, rank) < Work(before, ordered, rank))
  }

  /** The switches are judged once each, and there are no more restarts than judgements. */
  predicate Counted(judged: seq<nat>, restarts: nat) {
    NoDuplicates(judged) && restarts <= |Elements(judged)|
  }

  function SwitchNodes<V>(p: Program<V>): set<nat> {
    set n | n in p.nodes && IsSwitch(p, n)
  }

  lemma AddNode(p: set<nat>, a: set<nat>, n: nat)
    requires a <= p && n in p && n !in a
    ensures |a + {n}| == |a| + 1 <= |p|
    ensures |p - (a + {n})| < |p - a|
  {
    SubsetSize(a + {n}, p);
    assert p - a == (p - (a + {n})) + {n};
  }

  // ---------------------------------------------------------------- the state of the walker as a value

  /** Besides the state of the walk the stack, the switches in the order in which they were judged, and the restarts. */
  datatype Walk<+V> = Walk(st: State<V>, stack: seq<nat>, order: seq<nat>, restarts: nat)

  /**
   What holds of a walk at all times: every switch is judged at most once, every
   restart is due to one, and the switches were judged in a legal order that leaves
   exactly the edges that are left.
   */
  ghost predicate WalkOk<V(!new)>(p: Program<V>, rank: nat -> nat, w: Walk<V>) {
    && Inv(p, w.st)
    && w.st.evaluated == Elements(w.order) && Counted(w.order, w.restarts)
    && Trail(p, rank, w.st.live, w.order)
  }

  /** What holds between any two steps. */
  ghost predicate Steady<V(!new)>(p: Program<V>, rank: nat -> nat, w: Walk<V>) {
    WalkOk(p, rank, w) && w.st.ordered <= w.st.data.Keys && Waiting(p, w.st, w.stack)
  }

  /** What holds when a node is handed out for execution: all visited nodes but that have data, and it has its input. */
  ghost predicate Handed<V(!new)>(p: Program<V>, rank: nat -> nat, w: Walk<V>, n: nat) {
    && WalkOk(p, rank, w) && Waiting(p, w.st, w.stack)
    && n in w.st.nodes && n in w.st.ordered && w.st.ordered - {n} <= w.st.data.Keys
    && n in p.kinds && Fed(p, w.st, n) && (IsSwitch(p, n) ==> n in w.order)
  }

  function Unjudged<V>(p: Program<V>, order: seq<nat>): nat {
    |SwitchNodes(p) - Elements(order)|
  }

  /** Results stay; either no switch was judged and the nodes are the same, or some were and fewer are left. */
  ghost predicate Onward<V>(p: Program<V>, w: Walk<V>, w': Walk<V>) {
    && w'.st.data == w.st.data
    && (if w'.order == w.order then w'.st.nodes == w.st.nodes else Unjudged(p, w'.order) < Unjudged(p, w.order))
  }

  /** One turn of the loop of next led from w to w', and handed out r. */
  ghost predicate Took<V(!new)>(p: Program<V>, rank: nat -> nat, w: Walk<V>, w': Walk<V>, r: Option<nat>) {
    && Onward(p, w, w')
    && (r.None? ==> Steady(p, rank, w'))
    && (r.Some? ==> Handed(p, rank, w', r.value))
    && (w'.order == w.order ==>
          if r.Some? then r.value !in w.st.ordered && w'.st.ordered == w.st.ordered + {r.value}
          else w'.st.ordered == w.st.ordered && LessWork(w.stack, w'.stack, w.st.ordered, rank))
  }

  /** A walker that has just been made. */
  function Begin<V>(p: Program<V>): Walk<V> {
    Walk(Start(p), InputNodes(p, p.nodes, p.count), [], 0)
  }

  // ---------------------------------------------------------------- what the steps do

  /**
   A switch is judged. If it rejects edges they are pruned, and the walk starts over from
   the input nodes that are left.
   */
  ghost function Judgement<V>(p: Program<V>, w: Walk<V>, s: nat): Walk<V>
    requires IsSwitch(p, s)
  {
    var rejected := RejectedBy(p, w.st, s);
    if rejected == {} then
      w.(st := w.st.(evaluated := w.st.evaluated + {s}), order := w.order + [s])
    else
      var live' := w.st.live - Cascade(p.edges, w.st.live, rejected);
      var nodes' := w.st.nodes - Lost(p.edges, w.st.nodes, w.st.live, live');
      Walk(Judged(w.st, s, live', nodes'), InputNodes(p, nodes', p.count), w.order + [s], w.restarts + 1)
  }

  function Marked<V>(w: Walk<V>, n: nat): Walk<V> {
    w.(st := w.st.(ordered := w.st.ordered + {n}))
  }

  function Pushed<V>(p: Program<V>, w: Walk<V>, n: nat): Walk<V> {
    w.(stack := w.stack + Successors(p.edges, w.st.live, n))
  }

  /** Those of the nodes that are not visited, in their order. */
  function Unvisited(ordered: set<nat>, nodes: seq<nat>): seq<nat> {
    if nodes == [] then []
    else
      var rest, last := Unvisited(ordered, nodes[..|nodes| - 1]), nodes[|nodes| - 1];
      if last in ordered then rest else rest + [last]
  }

  lemma {:induction false} UnvisitedNodes(ordered: set<nat>, nodes: seq<nat>)
    ensures forall u :: u in Unvisited(ordered, nodes) <==> u in nodes && u !in ordered
  {
    if nodes != [] {
      var rest := nodes[..|nodes| - 1];
      UnvisitedNodes(ordered, rest);
      assert nodes == rest + [nodes[|nodes| - 1]];
    }
  }

  /** A node more is left out if it is visited, and else comes last. */
  lemma UnvisitedExactly(ordered: set<nat>, nodes: seq<nat>, u: nat)
    ensures Unvisited(ordered, []) == []
    ensures u in ordered ==> Unvisited(ordered, nodes + [u]) == Unvisited(ordered, nodes)
    ensures u !in ordered ==> Unvisited(ordered, nodes + [u]) == Unvisited(ordered, nodes) + [u]
  {
    assert (nodes + [u])[..|nodes|] == nodes;
  }

  predicate IsNewSwitch<V>(p: Program<V>, w: Walk<V>, n: nat) {
    IsSwitch(p, n) && n !in w.order
  }

  predicate StartsOver<V>(p: Program<V>, w: Walk<V>, n: nat) {
    IsNewSwitch(p, w, n) && RejectedBy(p, w.st, n) != {}
  }

  /**
   A node is visited: a switch that has not been judged is judged, and unless that starts
   the walk over the successors are next.
   */
  ghost function Visit<V>(p: Program<V>, w: Walk<V>, n: nat): Walk<V> {
    var v := Marked(w, n);
    var j := if IsNewSwitch(p, v, n) then Judgement(p, v, n) else v;
    if StartsOver(p, v, n) then j else Pushed(p, j, n)
  }

  /** One turn of the loop of next: the walk after it, and the node that it hands out, if any. */
  ghost function TurnOf<V>(p: Program<V>, w: Walk<V>): (Walk<V>, Option<nat>)
    requires w.stack != []
  {
    Considered(p, w.(stack := w.stack[..|w.stack| - 1]), w.stack[|w.stack| - 1])
  }

  /** What becomes of a node taken off the stack. */
  ghost function Considered<V>(p: Program<V>, w: Walk<V>, n: nat): (Walk<V>, Option<nat>) {
    var unresolved := Unvisited(w.st.ordered, Predecessors(p.edges, w.st.live, n));
    if n in w.st.ordered then (w, None)
    else if unresolved != [] then (w.(stack := w.stack + [n] + unresolved), None)
    else (Visit(p, w, n), if StartsOver(p, Marked(w, n), n) then None else Some(n))
  }

  /** The predecessors of n are all visited. */
  ghost predicate HasInput<V>(p: Program<V>, st: State<V>, n: nat) {
    forall e :: e in st.live && e < |p.edges| && p.edges[e].target == n ==> p.edges[e].source in st.ordered
  }

  /**
   The node on top of the stack is dropped if it is visited, put back below its unvisited
   predecessors if it has any, and visited otherwise; it is handed out unless the walk
   starts over.
   */
  lemma TurnExactly<V>(p: Program<V>, w: Walk<V>, below: seq<nat>, n: nat)
    requires w.stack == below + [n]
    ensures n in w.st.ordered ==> TurnOf(p, w) == (w.(stack := below), None)
    ensures n !in w.st.ordered && !HasInput(p, w.st, n) ==>
      TurnOf(p, w) == (w.(stack := below + [n] + Unvisited(w.st.ordered, Predecessors(p.edges, w.st.live, n))), None)
    ensures n !in w.st.ordered && HasInput(p, w.st, n) ==>
      && TurnOf(p, w).0 == Visit(p, w.(stack := below), n)
      && TurnOf(p, w).1 == if Visit(p, w.(stack := below), n).restarts == w.restarts then Some(n) else None
  {
    UnvisitedNodes(w.st.ordered, Predecessors(p.edges, w.st.live, n));
    AllPredecessors(p.edges, w.st.live, n);
    var unresolved := Unvisited(w.st.ordered, Predecessors(p.edges, w.st.live, n));
    if unresolved != [] {
      assert unresolved[0] in unresolved;
      var e :| e in InOf(p.edges, w.st.live, n) && p.edges[e].source == unresolved[0];
    }
    if e :| e in w.st.live && e < |p.edges| && p.edges[e].target == n && p.edges[e].source !in w.st.ordered {
      assert e in InOf(p.edges, w.st.live, n) && p.edges[e].source in unresolved;
    }
  }

  ghost predicate TurnTo<V>(p: Program<V>, w: Walk<V>, w': Walk<V>, r: Option<nat>) {
    w.stack != [] && TurnOf(p, w) == (w', r)
  }

  function Stored<V>(w: Walk<V>, n: nat, value: V): Walk<V> {
    w.(st := w.st.(data := w.st.data[n := value]))
  }

  /** A node handed out is executed unless it has data, and its result is stored. */
  ghost predicate Runs<V>(p: Program<V>, w: Walk<V>, n: nat, w': Walk<V>) {
    if n in w.st.data then
      w' == w
    else
      n in p.kinds &&
      match Execute(p, n, IncomingData(p, w.st.live, w.st.data, n))
      case Output(v) => w' == Stored(w, n, v)
      case Failure(_) => false
  }

  /** One turn of the walk, with the execution that it leads to. */
  ghost predicate Goes<V(!new)>(p: Program<V>, w: Walk<V>, w': Walk<V>) {
    TurnTo(p, w, w', None) || exists v, n :: TurnTo(p, w, v, Some(n)) && Runs(p, v, n, w')
  }

  /** A run of the walk, turn by turn. */
  ghost predicate IsRun<V(!new)>(p: Program<V>, run: seq<Walk<V>>) {
    run != [] && forall i :: 0 <= i < |run| - 1 ==> Goes(p, run[i], run[i + 1])
  }

  /** Turn by turn the walk gets from w to w'. */
  ghost predicate Leads<V(!new)>(p: Program<V>, w: Walk<V>, w': Walk<V>) {
    exists run :: IsRun(p, run) && run[0] == w && run[|run| - 1] == w'
  }

  /** The walk gets from w to a turn that hands out n and leaves v. */
  ghost predicate HandsOut<V(!new)>(p: Program<V>, w: Walk<V>, v: Walk<V>, n: nat) {
    exists u :: Leads(p, w, u) && TurnTo(p, u, v, Some(n))
  }

  lemma LeadsNowhere<V(!new)>(p: Program<V>, w: Walk<V>)
    ensures Leads(p, w, w)
  {
    assert IsRun(p, [w]);
  }

  lemma LeadsOn<V(!new)>(p: Program<V>, w: Walk<V>, v: Walk<V>, w': Walk<V>)
    requires Leads(p, w, v) && Goes(p, v, w')
    ensures Leads(p, w, w')
  {
    var run :| IsRun(p, run) && run[0] == w && run[|run| - 1] == v;
    var more := run + [w'];
    forall i | 0 <= i < |more| - 1
      ensures Goes(p, more[i], more[i + 1])
    {
      assert i < |run| - 1 ==> more[i] == run[i] && more[i + 1] == run[i + 1];
    }
    assert IsRun(p, more);
  }

  lemma LeadsTwice<V(!new)>(p: Program<V>, w: Walk<V>, v: Walk<V>, w': Walk<V>)
    requires Leads(p, w, v) && Leads(p, v, w')
    ensures Leads(p, w, w')
  {
    var one :| IsRun(p, one) && one[0] == w && one[|one| - 1] == v;
    var two :| IsRun(p, two) && two[0] == v && two[|two| - 1] == w';
    var all := one + two[1..];
    forall i | 0 <= i < |all| - 1
      ensures Goes(p, all[i], all[i + 1])
    {
      if i < |one| - 1 {
        assert all[i] == one[i] && all[i + 1] == one[i + 1];
      } else {
        var k := i - (|one| - 1);
        assert all[i] == two[k] && all[i + 1] == two[k + 1];
      }
    }
    assert IsRun(p, all);
  }

  lemma HandsOutLater<V(!new)>(p: Program<V>, w: Walk<V>, v: Walk<V>, v': Walk<V>, n: nat)
    requires Leads(p, w, v) && HandsOut(p, v, v', n)
    ensures HandsOut(p, w, v', n)
  {
    var u :| Leads(p, v, u) && TurnTo(p, u, v', Some(n));
    LeadsTwice(p, w, v, u);
  }

  /** Executing the node handed out takes the walk further. */
  lemma RunningLeads<V(!new)>(p: Program<V>, w: Walk<V>, v: Walk<V>, n: nat, w': Walk<V>)
    requires HandsOut(p, w, v, n) && Runs(p, v, n, w')
    ensures Leads(p, w, w')
  {
    var u :| Leads(p, w, u) && TurnTo(p, u, v, Some(n));
    assert Goes(p, u, w');
    LeadsOn(p, w, u, w');
  }

  lemma DroppingLeads<V(!new)>(p: Program<V>, w: Walk<V>, below: seq<nat>, n: nat)
    requires w.stack == below + [n] && n in w.st.ordered
    ensures Leads(p, w, w.(stack := below))
  {
    TurnLeads(p, w, w.(stack := below), None);
  }

  lemma ConsideringLeads<V(!new)>(p: Program<V>, w: Walk<V>, popped: Walk<V>, n: nat, w': Walk<V>, r: Option<nat>)
    requires w.stack == popped.stack + [n] && popped == w.(stack := popped.stack)
    requires Considered(p, popped, n) == (w', r)
    ensures r.None? ==> Leads(p, w, w')
    ensures r.Some? ==> HandsOut(p, w, w', r.value)
  {
    TurnLeads(p, w, w', r);
  }

  /** One turn leads on, or hands out a node. */
  lemma TurnLeads<V(!new)>(p: Program<V>, w: Walk<V>, w': Walk<V>, r: Option<nat>)
    requires w.stack != [] && TurnOf(p, w) == (w', r)
    ensures r.None? ==> Leads(p, w, w')
    ensures r.Some? ==> HandsOut(p, w, w', r.value)
  {
    LeadsNowhere(p, w);
    if r.None? {
      assert TurnTo(p, w, w', None);
      LeadsOn(p, w, w, w');
    }
  }

  /**
   Visiting marks the node and pushes its successors. A switch that has not been judged is
   judged first: the edges it rejects are pruned, with those that go with them and the
   nodes that lose a side, and if there are any the walk starts over with no visits and
   the input nodes that are left. Results are kept.
   */
  lemma VisitExactly<V>(p: Program<V>, w: Walk<V>, n: nat)
    requires n in p.kinds && InRange(p.edges, w.st.live)
    ensures var v := Visit(p, w, n);
      if !p.kinds[n].SwitchNode? || n in w.order then
        && v.st == w.st.(ordered := w.st.ordered + {n}) && v.order == w.order && v.restarts == w.restarts
        && v.stack == w.stack + Successors(p.edges, w.st.live, n)
      else
        var input := IncomingData(p, w.st.live, w.st.data, n);
        var rejected := set e | e in w.st.live && p.edges[e].source == n &&
          !Accepts(p.sem, p.kinds[n], input, p.edges[e].handle);
        && v.order == w.order + [n] && v.st.data == w.st.data && v.st.evaluated == w.st.evaluated + {n}
        && if rejected == {} then
             && v.st.ordered == w.st.ordered + {n} && v.st.live == w.st.live && v.st.nodes == w.st.nodes
             && v.stack == w.stack + Successors(p.edges, w.st.live, n) && v.restarts == w.restarts
           else
             && v.st.ordered == {} && v.restarts == w.restarts + 1
             && v.st.live == w.st.live - Cascade(p.edges, w.st.live, rejected)
             && v.st.nodes == w.st.nodes - Lost(p.edges, w.st.nodes, w.st.live, v.st.live)
             && v.stack == InputNodes(p, v.st.nodes, p.count)
  {
    if p.kinds[n].SwitchNode? && n !in w.order {
      var input := IncomingData(p, w.st.live, w.st.data, n);
      var rejected := set e | e in w.st.live && p.edges[e].source == n &&
        !Accepts(p.sem, p.kinds[n], input, p.edges[e].handle);
      assert RejectedBy(p, Marked(w, n).st, n) == rejected;
    }
  }

  // ---------------------------------------------------------------- what the steps keep

  /** After a restart the input nodes that are left wait, and nothing else needs to. */
  lemma InputsWaiting<V(!new)>(p: Program<V>, st: State<V>)
    requires WellFormed(p) && GraphOk(p, st) && st.ordered == {}
    ensures Waiting(p, st, InputNodes(p, st.nodes, p.count))
  {
  }

  /** Nothing is forgotten but the successors of n. */
  ghost predicate WaitingBut<V>(p: Program<V>, st: State<V>, stack: seq<nat>, n: nat) {
    && (forall m :: m in stack ==> m in Part(p, st.live))
    && (forall m :: m in st.nodes && IsInput(p, m) ==> m in st.ordered || m in stack)
    && (forall e :: e in st.live && e < |p.edges| && p.edges[e].source in st.ordered && p.edges[e].source != n ==>
          p.edges[e].target in st.ordered || p.edges[e].target in stack)
  }

  lemma WaitingWithout<V(!new)>(p: Program<V>, st: State<V>, stack: seq<nat>, n: nat)
    requires Waiting(p, st, stack + [n])
    ensures WaitingBut(p, st.(ordered := st.ordered + {n}), stack, n) && n in Part(p, st.live)
  {
    forall m | m in stack || m == n
      ensures m in Part(p, st.live)
    {
      assert m in stack + [n];
    }
  }

  lemma SuccessorsWait<V(!new)>(p: Program<V>, st: State<V>, stack: seq<nat>, n: nat)
    requires Connects(p, st.live) && n in st.ordered && n in Part(p, st.live)
    requires WaitingBut(p, st, stack, n)
    ensures Waiting(p, st, stack + Successors(p.edges, st.live, n))
  {
    var s := Successors(p.edges, st.live, n);
    AllSuccessors(p.edges, st.live, n);
    PartSpreads(p, st.live);
    forall m | m in s
      ensures m in Part(p, st.live)
    {
      var e :| e in OutOf(p.edges, st.live, n) && p.edges[e].target == m;
    }
    forall e | e in st.live && e < |p.edges| && p.edges[e].source in st.ordered
      ensures p.edges[e].target in st.ordered || p.edges[e].target in stack + s
    {
      if p.edges[e].source == n {
        assert e in OutOf(p.edges, st.live, n);
        assert p.edges[e].target in s;
      }
    }
  }

  lemma OneMoreJudged<V(!new)>(p: Program<V>, s: seq<nat>, n: nat)
    requires n in p.nodes && IsSwitch(p, n) && n !in s && NoDuplicates(s) && Elements(s) <= SwitchNodes(p)
    ensures Elements(s + [n]) == Elements(s) + {n} && NoDuplicates(s + [n]) && |Elements(s + [n])| == |Elements(s)| + 1
    ensures |SwitchNodes(p) - Elements(s + [n])| < |SwitchNodes(p) - Elements(s)|
  {
    AddElement(s, n);
    AddNode(SwitchNodes(p), Elements(s), n);
  }

  lemma AddElement(s: seq<nat>, x: nat)
    requires x !in s
    ensures Elements(s + [x]) == Elements(s) + {x} && |Elements(s + [x])| == |Elements(s)| + 1
  {
    assert Elements(s + [x]) == Elements(s) + {x};
  }

  lemma BeginSteady<V(!new)>(p: Program<V>, rank: nat -> nat)
    requires WellFormed(p) && Ranked(p, rank)
    ensures Steady(p, rank, Begin(p))
  {
    StartOk(p);
    InputsWaiting(p, Start(p));
  }

  lemma JudgementCounts<V(!new)>(p: Program<V>, rank: nat -> nat, w: Walk<V>, s: nat)
    requires Inv(p, w.st) && w.st.evaluated == Elements(w.order) && Counted(w.order, w.restarts)
    requires s in w.st.nodes && IsNewSwitch(p, w, s)
    ensures Elements(w.order + [s]) == w.st.evaluated + {s} && Counted(w.order + [s], w.restarts + 1)
    ensures Unjudged(p, w.order + [s]) < Unjudged(p, w.order)
  {
    GraphLinks(p, w.st);
    OneMoreJudged(p, w.order, s);
  }

  lemma NothingPruned(edges: seq<Edge>, live: set<nat>)
    ensures live - Cascade(edges, live, {}) == live
  {
    EmptyCascade(edges, live);
  }

  lemma PruningKeepsWalk<V(!new)>(p: Program<V>, rank: nat -> nat, w: Walk<V>, s: nat, live': set<nat>,
      nodes': set<nat>)
    requires WalkOk(p, rank, w) && s in w.st.nodes && IsNewSwitch(p, w, s) && Fed(p, w.st, s)
    requires PrunedTo(p, w.st, RejectedBy(p, w.st, s), live', nodes')
    ensures WalkOk(p, rank, Walk(Judged(w.st, s, live', nodes'), [], w.order + [s], w.restarts + 1))
  {
    GraphLinks(p, w.st);
    JudgementCounts(p, rank, w, s);
    JudgedOk(p, w.st, rank, s, live', nodes');
    TrailGrows(p, w.st, rank, w.order, s);
  }

  /** Judging a switch that has its input keeps what holds of a walk. */
  lemma JudgementKeepsWalk<V(!new)>(p: Program<V>, rank: nat -> nat, w: Walk<V>, s: nat)
    requires WalkOk(p, rank, w) && s in w.st.nodes && IsNewSwitch(p, w, s) && Fed(p, w.st, s)
    ensures WalkOk(p, rank, Judgement(p, w, s)) && Onward(p, w, Judgement(p, w, s))
  {
    JudgementCounts(p, rank, w, s);
    var rejected := RejectedBy(p, w.st, s);
    if rejected == {} {
      NothingPruned(p.edges, w.st.live);
      assert w.st.nodes - Lost(p.edges, w.st.nodes, w.st.live, w.st.live) == w.st.nodes;
      PruningKeepsWalk(p, rank, w, s, w.st.live, w.st.nodes);
      OrderedAgain(p, w.st, Judged(w.st, s, w.st.live, w.st.nodes));
    } else {
      var live' := w.st.live - Cascade(p.edges, w.st.live, rejected);
      PruningKeepsWalk(p, rank, w, s, live', w.st.nodes - Lost(p.edges, w.st.nodes, w.st.live, live'));
    }
  }

  /** Without rejected edges the visits stay as they are. */
  lemma OrderedAgain<V(!new)>(p: Program<V>, st: State<V>, judged: State<V>)
    requires Inv(p, st) && Inv(p, judged) && judged.live == st.live
    ensures Inv(p, judged.(ordered := st.ordered))
  {
    SameFed(p, judged, judged.(ordered := st.ordered));
  }

  /** A node whose predecessors are all visited can be visited. */
  lemma MarkingKeepsWalk<V(!new)>(p: Program<V>, rank: nat -> nat, w: Walk<V>, n: nat)
    requires WalkOk(p, rank, w) && w.st.ordered <= w.st.data.Keys && n in Part(p, w.st.live)
    requires forall u :: u in Predecessors(p.edges, w.st.live, n) ==> u in w.st.ordered
    ensures WalkOk(p, rank, Marked(w, n)) && Fed(p, Marked(w, n).st, n)
  {
    AllPredecessors(p.edges, w.st.live, n);
    forall e | e in InOf(p.edges, w.st.live, n)
      ensures p.edges[e].source in w.st.ordered
    {
      assert p.edges[e].source in Predecessors(p.edges, w.st.live, n);
    }
    VisitOk(p, w.st, n);
  }

  /** Visiting a node keeps what holds of a walk, and hands the node out unless the walk starts over. */
  lemma VisitKeepsWalk<V(!new)>(p: Program<V>, rank: nat -> nat, w: Walk<V>, n: nat)
    requires WalkOk(p, rank, w) && w.st.ordered <= w.st.data.Keys && Waiting(p, w.st, w.stack + [n]) &&
      n !in w.st.ordered
    requires forall u :: u in Predecessors(p.edges, w.st.live, n) ==> u in w.st.ordered
    ensures Onward(p, w, Visit(p, w, n))
    ensures StartsOver(p, Marked(w, n), n) ==>
      Steady(p, rank, Visit(p, w, n)) && Visit(p, w, n).order != w.order
    ensures !StartsOver(p, Marked(w, n), n) ==>
      Handed(p, rank, Visit(p, w, n), n) && Visit(p, w, n).st.ordered == w.st.ordered + {n}
  {
    WaitingWithout(p, w.st, w.stack, n);
    MarkingKeepsWalk(p, rank, w, n);
    if IsNewSwitch(p, w, n) {
      JudgementKeepsWalk(p, rank, Marked(w, n), n);
    }
    if StartsOver(p, Marked(w, n), n) {
      InputsWaiting(p, Visit(p, w, n).st);
    } else {
      SuccessorsWait(p, Visit(p, w, n).st, w.stack, n);
    }
  }

  lemma DependencyBelow<V(!new)>(p: Program<V>, st: State<V>, rank: nat -> nat, n: nat, u: nat)
    requires Links(p, st) && Ranked(p, rank) && u in Predecessors(p.edges, st.live, n)
    ensures u in st.nodes && rank(u) < rank(n)
  {
    AllPredecessors(p.edges, st.live, n);
    var e :| e in InOf(p.edges, st.live, n) && p.edges[e].source == u;
  }

  lemma StackGrows<V(!new)>(p: Program<V>, st: State<V>, stack: seq<nat>, n: nat, unresolved: seq<nat>)
    requires Connects(p, st.live) && Waiting(p, st, stack + [n])
    requires forall u :: u in unresolved ==> u in Predecessors(p.edges, st.live, n)
    ensures Waiting(p, st, stack + [n] + unresolved)
  {
    AllPredecessors(p.edges, st.live, n);
    PartSpreads(p, st.live);
    assert n in stack + [n];
    forall u | u in unresolved
      ensures u in Part(p, st.live)
    {
      var e :| e in InOf(p.edges, st.live, n) && p.edges[e].source == u;
    }
  }

  lemma PostponingLessens(stack: seq<nat>, n: nat, unresolved: seq<nat>, ordered: set<nat>, rank: nat -> nat)
    requires n !in ordered && unresolved != [] && unresolved[|unresolved| - 1] !in ordered
    requires rank(unresolved[|unresolved| - 1]) < rank(n)
    ensures LessWork(stack + [n], stack + [n] + unresolved, ordered, rank)
  {
  }

  lemma DroppingLessens(stack: seq<nat>, n: nat, ordered: set<nat>, rank: nat -> nat)
    requires n in ordered
    ensures LessWork(stack + [n], stack, ordered, rank)
  {
  }

  /** Putting a node back below what has to be visited first leaves less work. */
  lemma PostponingKeepsWalk<V(!new)>(p: Program<V>, rank: nat -> nat, w: Walk<V>, stack: seq<nat>, n: nat,
      unresolved: seq<nat>)
    requires Steady(p, rank, w) && w.stack == stack + [n] && n !in w.st.ordered && unresolved != []
    requires forall u :: u in unresolved ==> u in Predecessors(p.edges, w.st.live, n) && u !in w.st.ordered
    ensures Took(p, rank, w, w.(stack := stack + [n] + unresolved), None)
  {
    GraphLinks(p, w.st);
    var last := unresolved[|unresolved| - 1];
    assert last in unresolved;
    DependencyBelow(p, w.st, rank, n, last);
    StackGrows(p, w.st, stack, n, unresolved);
    PostponingLessens(stack, n, unresolved, w.st.ordered, rank);
  }

  lemma WaitingDropped<V>(p: Program<V>, st: State<V>, stack: seq<nat>, n: nat)
    requires Waiting(p, st, stack + [n]) && n in st.ordered
    ensures Waiting(p, st, stack)
  {
    assert forall m :: m in stack + [n] <==> m in stack || m == n;
  }

  /** A visited node on the stack is dropped. */
  lemma DroppingKeepsWalk<V(!new)>(p: Program<V>, rank: nat -> nat, w: Walk<V>, stack: seq<nat>, n: nat)
    requires Steady(p, rank, w) && w.stack == stack + [n] && n in w.st.ordered
    ensures Took(p, rank, w, w.(stack := stack), None)
  {
    WaitingDropped(p, w.st, stack, n);
    DroppingLessens(stack, n, w.st.ordered, rank);
  }

  lemma VisitTakes<V(!new)>(p: Program<V>, rank: nat -> nat, w: Walk<V>, stack: seq<nat>, n: nat)
    requires Steady(p, rank, w) && w.stack == stack + [n] && n !in w.st.ordered
    requires forall u :: u in Predecessors(p.edges, w.st.live, n) ==> u in w.st.ordered
    ensures var popped := w.(stack := stack);
      Took(p, rank, w, Visit(p, popped, n), if StartsOver(p, Marked(popped, n), n) then None else Some(n))
  {
    VisitKeepsWalk(p, rank, w.(stack := stack), n);
  }

  // ---------------------------------------------------------------- the walker

  class GraphWalker<V(!new)> {
    var iter: nat
    var nodeData: map<nat, V>
    var ordered: set<nat>
    var toVisit: seq<nat>
    var visitedSwitchNodes: seq<nat>

    ghost function St(g: StableGraph): State<V>
      reads `nodeData, `ordered, `visitedSwitchNodes, g
    {
      State(g.nodes, g.live, nodeData, ordered, Elements(visitedSwitchNodes))
    }

    ghost function Now(g: StableGraph): Walk<V>
      reads this, g
    {
      Walk(St(g), toVisit, visitedSwitchNodes, iter)
    }

    constructor (p: Program<V>, g: StableGraph)
      requires g.nodes == p.nodes && g.live == AllEdges(p)
      ensures Now(g) == Begin(p)
    {
      iter := 0;
      nodeData := map[];
      ordered := {};
      toVisit := InputNodes(p, g.nodes, p.count);
      visitedSwitchNodes := [];
    }

    /** Forgets the visits, not the results, and starts again from the input nodes that are left. */
    method Reset(p: Program<V>, g: StableGraph)
      modifies `ordered, `toVisit, `iter
      ensures ordered == {} && iter == old(iter) + 1 && toVisit == InputNodes(p, g.nodes, p.count)
    {
      ordered := {};
      toVisit := InputNodes(p, g.nodes, p.count);
      iter := iter + 1;
    }

    method UnresolvedDependencies(p: Program<V>, g: StableGraph, nid: nat) returns (r: seq<nat>)
      requires g.edges == p.edges
      ensures r == Unvisited(ordered, Predecessors(p.edges, g.live, nid))
    {
      var preds := Predecessors(p.edges, g.live, nid);
      r := [];
      var i := 0;
      while i < |preds|
        invariant 0 <= i <= |preds| && r == Unvisited(ordered, preds[..i])
      {
        assert preds[..i + 1][..i] == preds[..i];
        if preds[i] !in ordered {
          r := r + [preds[i]];
        }
        i := i + 1;
      }
      assert preds[..|preds|] == preds;
    }

    /** The out-edges the switch does not accept, in adjacency order. */
    method EdgesToRemove(p: Program<V>, g: StableGraph, nid: nat) returns (r: seq<nat>)
      requires g.edges == p.edges && IsSwitch(p, nid)
      ensures Elements(r) == RejectedBy(p, St(g), nid)
      ensures forall e: nat :: e in r <==>
        && e in g.live && e < |p.edges| && p.edges[e].source == nid
        && !Accepts(p.sem, p.kinds[nid], IncomingData(p, g.live, nodeData, nid), p.edges[e].handle)
    {
      var input := IncomingData(p, g.live, nodeData, nid);
      var ids := OutList(p.edges, g.live, nid, |p.edges|);
      r := [];
      var i := 0;
      while i < |ids|
        invariant 0 <= i <= |ids|
        invariant forall e :: e in r <==> e in ids[..i] && !Accepts(p.sem, p.kinds[nid], input, p.edges[e].handle)
      {
        assert ids[..i + 1] == ids[..i] + [ids[i]];
        if !Accepts(p.sem, p.kinds[nid], input, p.edges[ids[i]].handle) {
          r := r + [ids[i]];
        }
        i := i + 1;
      }
      assert ids[..|ids|] == ids;
    }

    /** Judges a switch: evaluates its statements, prunes the edges it rejects, and starts over if there are any. */
    method JudgeSwitch(p: Program<V>, g: StableGraph, nid: nat) returns (restarted: bool)
      requires g.edges == p.edges && InRange(g.edges, g.live) && IsSwitch(p, nid)
      modifies `iter, `ordered, `toVisit, `visitedSwitchNodes, g
      ensures Now(g) == Judgement(p, old(Now(g)), nid) && restarted == (RejectedBy(p, old(St(g)), nid) != {})
    {
      ghost var w := Now(g);
      var edgesToRemove := EdgesToRemove(p, g, nid);
      var edgesRemoveCount := |edgesToRemove|;
      assert forall e :: e in edgesToRemove <==> e in Elements(edgesToRemove);
      g.Prune(edgesToRemove);
      visitedSwitchNodes := visitedSwitchNodes + [nid];
      assert Elements(visitedSwitchNodes) == Elements(w.order) + {nid};
      restarted := edgesRemoveCount > 0;
      if restarted {
        assert edgesToRemove[0] in Elements(edgesToRemove);
        Reset(p, g);
      } else {
        NothingPruned(p.edges, w.st.live);
      }
    }

    /**
     Visits a node whose predecessors are visited. A switch is judged first; if that
     starts the walk over there is no node to execute yet.
     */
    method VisitNode(p: Program<V>, g: StableGraph, nid: nat) returns (found: bool)
      requires g.edges == p.edges && InRange(g.edges, g.live)
      modifies `iter, `ordered, `toVisit, `visitedSwitchNodes, g
      ensures Now(g) == Visit(p, old(Now(g)), nid) && found == !StartsOver(p, Marked(old(Now(g)), nid), nid)
    {
      ordered := ordered + {nid};
      var restarted := false;
      if IsSwitch(p, nid) && nid !in visitedSwitchNodes {
        restarted := JudgeSwitch(p, g, nid);
      }
      if !restarted {
        toVisit := toVisit + Successors(p.edges, g.live, nid);
      }
      found := !restarted;
    }

    /** One turn of the loop of next: takes the top of the stack. */
    method TakeNode(p: Program<V>, g: StableGraph, ghost rank: nat -> nat) returns (r: Option<nat>)
      requires g.edges == p.edges && Steady(p, rank, Now(g)) && toVisit != []
      modifies `iter, `ordered, `toVisit, `visitedSwitchNodes, g
      ensures Took(p, rank, old(Now(g)), Now(g), r)
      ensures r.None? ==> Leads(p, old(Now(g)), Now(g))
      ensures r.Some? ==> HandsOut(p, old(Now(g)), Now(g), r.value)
    {
      ghost var w := Now(g);
      var nid := toVisit[|toVisit| - 1];
      toVisit := toVisit[..|toVisit| - 1];
      assert w.stack == toVisit + [nid];
      if nid in ordered {
        DroppingKeepsWalk(p, rank, w, toVisit, nid);
        DroppingLeads(p, w, toVisit, nid);
        r := None;
      } else {
        r := Consider(p, g, nid, rank, w);
      }
    }

    /** The node taken off the stack is visited, or put back below the nodes that have to be visited first. */
    method Consider(p: Program<V>, g: StableGraph, nid: nat, ghost rank: nat -> nat, ghost w: Walk<V>)
      returns (r: Option<nat>)
      requires g.edges == p.edges && Steady(p, rank, w) && nid !in ordered
      requires Now(g) == w.(stack := toVisit) && w.stack == toVisit + [nid]
      modifies `iter, `ordered, `toVisit, `visitedSwitchNodes, g
      ensures Took(p, rank, w, Now(g), r)
      ensures r.None? ==> Leads(p, w, Now(g))
      ensures r.Some? ==> HandsOut(p, w, Now(g), r.value)
    {
      ghost var popped := Now(g);
      var unresolved := UnresolvedDependencies(p, g, nid);
      UnvisitedNodes(ordered, Predecessors(p.edges, g.live, nid));
      if unresolved != [] {
        PostponingKeepsWalk(p, rank, w, toVisit, nid, unresolved);
        toVisit := toVisit + [nid] + unresolved;
        r := None;
      } else {
        assert forall u :: u in Predecessors(p.edges, g.live, nid) ==> u in ordered;
        GraphLinks(p, w.st);
        VisitTakes(p, rank, w, toVisit, nid);
        var found := VisitNode(p, g, nid);
        r := if found then Some(nid) else None;
      }
      ConsideringLeads(p, w, popped, nid, Now(g), r);
    }

    /** The next node to execute: visited, with all its predecessors visited before it. */
    method Next(p: Program<V>, g: StableGraph, ghost rank: nat -> nat) returns (r: Option<nat>)
      requires g.edges == p.edges && Steady(p, rank, Now(g))
      modifies `iter, `ordered, `toVisit, `visitedSwitchNodes, g
      ensures Onward(p, old(Now(g)), Now(g))
      ensures r.None? ==> Steady(p, rank, Now(g)) && (iter >= 1000 || Complete(p, St(g)))
      ensures old(iter) >= 1000 ==> r.None? && Now(g) == old(Now(g))
      ensures r.None? ==> Leads(p, old(Now(g)), Now(g))
      ensures r.Some? ==> HandsOut(p, old(Now(g)), Now(g), r.value)
      ensures r.Some? ==> Handed(p, rank, Now(g), r.value)
      ensures r.Some? && visitedSwitchNodes == old(visitedSwitchNodes) ==>
        r.value !in old(ordered) && ordered == old(ordered) + {r.value}
    {
      LeadsNowhere(p, Now(g));
      if iter >= ITER_MAX {
        return None;
      }
      while toVisit != []
        invariant Leads(p, old(Now(g)), Now(g))
        invariant Steady(p, rank, Now(g)) && Onward(p, old(Now(g)), Now(g))
        invariant visitedSwitchNodes == old(visitedSwitchNodes) ==> ordered == old(ordered)
        decreases Unjudged(p, visitedSwitchNodes), Phase(toVisit, ordered), Work(toVisit, ordered, rank)
      {
        ghost var w := Now(g);
        r := TakeNode(p, g, rank);
        if r.Some? {
          HandsOutLater(p, old(Now(g)), w, Now(g), r.value);
          return;
        }
        LeadsTwice(p, old(Now(g)), w, Now(g));
      }
      return None;
    }
  }
}
