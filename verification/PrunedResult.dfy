/**
 What the pruned graph means for the result of an evaluation: the part of the graph
 that hangs together with the input nodes is final once its switches are judged,
 and a node without out-edges keeps its result whatever is judged later.
 */
module PrunedResult {
  import opened Wrappers
  import opened EdgeCascade
  import opened CascadeLocality
  import opened DecisionProgram
  import opened PrunedGraph
  import opened PruningOrder

  // ---------------------------------------------------------------- the part that hangs together with the input nodes

  predicate IsInput<V>(p: Program<V>, n: nat) {
    n in p.kinds && p.kinds[n].InputNode?
  }

  /** S holds the remaining input nodes, and with a node those it shares an edge with. */
  ghost predicate Spreads<V>(p: Program<V>, live: set<nat>, S: set<nat>) {
    && (forall n :: n in NodesOf(p, live) && IsInput(p, n) ==> n in S)
    && forall e :: e in live && e < |p.edges| ==> (p.edges[e].source in S <==> p.edges[e].target in S)
  }

  /** The nodes that hang together with a remaining input node. */
  ghost function Part<V>(p: Program<V>, live: set<nat>): set<nat> {
    set n | n in NodesOf(p, live) && Hangs(p, live, n)
  }

  ghost predicate Hangs<V>(p: Program<V>, live: set<nat>, n: nat) {
    forall S :: Spreads(p, live, S) ==> n in S
  }

  lemma PartSpreads<V>(p: Program<V>, live: set<nat>)
    requires Connects(p, live)
    ensures Spreads(p, live, Part(p, live))
  {
    var K := Part(p, live);
    forall e | e in live && e < |p.edges|
      ensures p.edges[e].source in K <==> p.edges[e].target in K
    {
      forall S | Spreads(p, live, S)
        ensures p.edges[e].source in S <==> p.edges[e].target in S
      {
      }
    }
  }

  lemma PartLeast<V>(p: Program<V>, live: set<nat>, S: set<nat>)
    requires Spreads(p, live, S)
    ensures Part(p, live) <= S
  {
  }

  /** The part holds the input nodes that are left, with a node those it shares an edge with, and no others. */
  lemma PartExactly<V>(p: Program<V>, live: set<nat>, S: set<nat>)
    requires Connects(p, live)
    ensures var K := Part(p, live);
      && K <= NodesOf(p, live)
      && (forall n :: n in NodesOf(p, live) && n in p.kinds && p.kinds[n].InputNode? ==> n in K)
      && (forall e :: e in live ==> (p.edges[e].source in K <==> p.edges[e].target in K))
    ensures
      && (forall n :: n in NodesOf(p, live) && n in p.kinds && p.kinds[n].InputNode? ==> n in S)
      && (forall e :: e in live ==> (p.edges[e].source in S <==> p.edges[e].target in S))
      ==> Part(p, live) <= S
  {
    PartSpreads(p, live);
    if Spreads(p, live, S) {
      PartLeast(p, live, S);
    }
  }

  /** Judging a switch that does not hang together with the input nodes leaves what does as it is. */
  lemma OutsideKeepsPart<V(!new)>(p: Program<V>, rank: nat -> nat, g: Stage, s: nat)
    requires Sound(p, rank, g) && Ready(p, rank, g, s) && s !in Part(p, g.live)
    ensures Part(p, Judge(p, rank, g, s).live) == Part(p, g.live)
  {
    var live, live', K := g.live, Judge(p, rank, g, s).live, Part(p, g.live);
    var seed := Rejects(p, rank, live, s);
    PartSpreads(p, live);
    PartKeepsEdges(p.edges, live, K, seed);
    JudgeSound(p, rank, g, s);
    forall n | n in K
      ensures n in NodesOf(p, live')
    {
      SameEdges(p, live, Cascade(p.edges, live, seed), K, n);
      NodesAfter(p, live, live', n);
    }
    forall n | n in NodesOf(p, live')
      ensures n in NodesOf(p, live)
    {
      NodesAfter(p, live, live', n);
    }
    assert Spreads(p, live', K);
    PartLeast(p, live', K);
    var S := Part(p, live') + (NodesOf(p, live) - K);
    PartSpreads(p, live');
    BackwardSpreads(p, live, live', K, Part(p, live'));
    PartLeast(p, live, S);
  }

  lemma SameEdges<V>(p: Program<V>, live: set<nat>, C: set<nat>, K: set<nat>, n: nat)
    requires n in K && forall e :: e in C && e < |p.edges| ==> p.edges[e].source !in K && p.edges[e].target !in K
    ensures InOf(p.edges, live - C, n) == InOf(p.edges, live, n) &&
      OutOf(p.edges, live - C, n) == OutOf(p.edges, live, n)
  {
  }

  lemma BackwardSpreads<V>(p: Program<V>, live: set<nat>, live': set<nat>, K: set<nat>, S: set<nat>)
    requires Connects(p, live) && Spreads(p, live, K) && Spreads(p, live', S) && S <= K <= NodesOf(p, live')
    requires forall e :: e in live && e < |p.edges| && p.edges[e].source in K ==> e in live'
    ensures Spreads(p, live, S + (NodesOf(p, live) - K))
  {
  }

  /** Once the switches that hang together with the input nodes are judged, that part of the graph is final. */
  lemma {:induction false} JudgedPartIsFinal<V(!new)>(p: Program<V>, rank: nat -> nat, g: Stage, order: seq<nat>)
    requires Sound(p, rank, g) && Legal(p, rank, g, order)
    requires forall s :: s in Part(p, g.live) && IsSwitch(p, s) ==> s in g.judged
    ensures Part(p, End(p, rank, g, order).live) == Part(p, g.live)
    decreases |order|
  {
    if order != [] {
      OutsideKeepsPart(p, rank, g, order[0]);
      JudgeSound(p, rank, g, order[0]);
      JudgedPartIsFinal(p, rank, Judge(p, rank, g, order[0]), order[1..]);
    }
  }

  // ---------------------------------------------------------------- endings

  /** n is left, and no edge leaves it. */
  predicate IsEnding<V>(p: Program<V>, live: set<nat>, n: nat) {
    n in NodesOf(p, live) && OutOf(p.edges, live, n) == {}
  }

  lemma JudgingKeepsEnding<V(!new)>(p: Program<V>, rank: nat -> nat, g: Stage, s: nat, n: nat)
    requires Sound(p, rank, g) && Ready(p, rank, g, s) && Grounded(p, rank, g.live, g.judged, n) &&
      IsEnding(p, g.live, n)
    ensures var h := Judge(p, rank, g, s);
      Grounded(p, rank, h.live, h.judged, n) && IsEnding(p, h.live, n) &&
      Run(p, h.live, rank, n) == Run(p, g.live, rank, n)
  {
    var h, U := Judge(p, rank, g, s), Cone(p, rank, g.live, n);
    RejectsOutward(p, rank, g.live, g.judged, s);
    ConeFacts(p, rank, g.live, n);
    ConeGrounded(p, rank, g.live, g.judged, n);
    ConeKeepsInEdges(p.edges, g.live, GroundedNodes(p, rank, g.live, g.judged), U, Rejects(p, rank, g.live, s));
    RunSame(p, rank, g.live, h.live, U, n);
    GroundedSame(p, rank, g.live, h.live, U, g.judged, h.judged, n);
    NodesAfter(p, g.live, h.live, n);
    assert OutOf(p.edges, h.live, n) == {};
  }

  /** A node without out-edges below judged switches keeps its result whatever else is judged. */
  lemma {:induction false} EndingsStay<V(!new)>(p: Program<V>, rank: nat -> nat, g: Stage, order: seq<nat>, n: nat)
    requires Sound(p, rank, g) && Legal(p, rank, g, order) && Grounded(p, rank, g.live, g.judged, n) &&
      IsEnding(p, g.live, n)
    ensures IsEnding(p, End(p, rank, g, order).live, n) &&
      Run(p, End(p, rank, g, order).live, rank, n) == Run(p, g.live, rank, n)
    decreases |order|
  {
    if order != [] {
      JudgingKeepsEnding(p, rank, g, order[0], n);
      JudgeSound(p, rank, g, order[0]);
      EndingsStay(p, rank, Judge(p, rank, g, order[0]), order[1..], n);
    }
  }

  /** Pruning makes no new endings. */
  lemma NoNewEndings<V>(p: Program<V>, live: set<nat>, live': set<nat>, n: nat)
    requires live' <= live <= AllEdges(p) && IsEnding(p, live', n)
    ensures IsEnding(p, live, n)
  {
    NodesAfter(p, live, live', n);
  }

  /** The merged results of a single run of the graph on those of its endings that are in S, in node order. */
  ghost function EndingsIn<V(!new)>(p: Program<V>, rank: nat -> nat, live: set<nat>, S: set<nat>, k: nat): V {
    if k == 0 then p.sem.emptyObject
    else
      var acc, r := EndingsIn(p, rank, live, S, k - 1), Run(p, live, rank, k - 1);
      if k - 1 in S && IsEnding(p, live, k - 1) && r.Some? then p.sem.merge(acc, r.value) else acc
  }

  /** The result of pruning the graph first and then running it once. */
  ghost function PruneThenRun<V(!new)>(p: Program<V>, rank: nat -> nat): V
    requires WellFormed(p) && Ranked(p, rank)
  {
    EndingsIn(p, rank, Pruned(p, rank), Part(p, Pruned(p, rank)), p.count)
  }

  ghost predicate IsResultIn<V(!new)>(p: Program<V>, rank: nat -> nat, live: set<nat>, S: set<nat>, n: nat) {
    n in S && IsEnding(p, live, n) && Run(p, live, rank, n).Some?
  }

  lemma {:induction false} EndingsMerged<V(!new)>(p: Program<V>, rank: nat -> nat, live: set<nat>, S: set<nat>, k: nat)
    returns (ends: seq<nat>, merged: seq<V>)
    ensures forall i :: 0 <= i < |ends| ==> ends[i] < k
    ensures forall i, j :: 0 <= i < j < |ends| ==> ends[i] < ends[j]
    ensures forall n: nat :: n in ends <==> n < k && IsResultIn(p, rank, live, S, n)
    ensures |merged| == |ends| + 1 && merged[0] == p.sem.emptyObject && merged[|ends|] == EndingsIn(p, rank, live, S, k)
    ensures forall i :: 0 <= i < |ends| ==>
      Run(p, live, rank, ends[i]).Some? && merged[i + 1] == p.sem.merge(merged[i], Run(p, live, rank, ends[i]).value)
  {
    if k == 0 {
      ends, merged := [], [p.sem.emptyObject];
    } else {
      ends, merged := EndingsMerged(p, rank, live, S, k - 1);
      if IsResultIn(p, rank, live, S, k - 1) {
        merged := merged + [p.sem.merge(merged[|ends|], Run(p, live, rank, k - 1).value)];
        ends := ends + [k - 1];
      }
    }
  }

  /** The endings are merged in node order into an empty object, one after the other. */
  lemma EndingsExactly<V(!new)>(p: Program<V>, rank: nat -> nat, live: set<nat>, S: set<nat>, k: nat)
    returns (ends: seq<nat>, merged: seq<V>)
    ensures forall i, j :: 0 <= i < j < |ends| ==> ends[i] < ends[j]
    ensures forall n: nat :: n in ends <==>
      && n < k && n in S && n in NodesOf(p, live) && Run(p, live, rank, n).Some?
      && forall e :: e in live && e < |p.edges| ==> p.edges[e].source != n
    ensures |merged| == |ends| + 1 && merged[0] == p.sem.emptyObject && merged[|ends|] == EndingsIn(p, rank, live, S, k)
    ensures forall i :: 0 <= i < |ends| ==>
      Run(p, live, rank, ends[i]).Some? && merged[i + 1] == p.sem.merge(merged[i], Run(p, live, rank, ends[i]).value)
  {
    ends, merged := EndingsMerged(p, rank, live, S, k);
    forall n: nat
      ensures OutOf(p.edges, live, n) == {} <==> forall e :: e in live && e < |p.edges| ==> p.edges[e].source != n
    {
      NoneLeaves(p, live, n);
    }
  }

  lemma NoneLeaves<V>(p: Program<V>, live: set<nat>, n: nat)
    ensures OutOf(p.edges, live, n) == {} <==> forall e :: e in live && e < |p.edges| ==> p.edges[e].source != n
  {
    if forall e :: e in live && e < |p.edges| ==> p.edges[e].source != n {
      assert forall e :: e !in OutOf(p.edges, live, n);
    }
    forall e | e in live && e < |p.edges| && p.edges[e].source == n
      ensures e in OutOf(p.edges, live, n)
    {
    }
  }

  lemma {:induction false} EndingsInSame<V(!new)>(p: Program<V>, rank: nat -> nat, live: set<nat>, live': set<nat>,
      S: set<nat>, k: nat)
    requires forall n :: n in S ==> (IsEnding(p, live, n) <==> IsEnding(p, live', n))
    requires forall n :: n in S && IsEnding(p, live, n) ==> Run(p, live', rank, n) == Run(p, live, rank, n)
    ensures EndingsIn(p, rank, live', S, k) == EndingsIn(p, rank, live, S, k)
  {
    if k > 0 {
      EndingsInSame(p, rank, live, live', S, k - 1);
    }
  }

  /**
   The endings a walk has reached have the results they have in the pruned graph,
   whatever has been judged by then.
   */
  lemma EndingsOfPruned<V(!new)>(p: Program<V>, rank: nat -> nat, order: seq<nat>, S: set<nat>, k: nat)
    requires WellFormed(p) && Ranked(p, rank) && Legal(p, rank, First(p), order)
    requires var g := End(p, rank, First(p), order);
      forall n :: n in S ==> Grounded(p, rank, g.live, g.judged, n)
    ensures EndingsIn(p, rank, End(p, rank, First(p), order).live, S, k) == EndingsIn(p, rank, Pruned(p, rank), S, k)
  {
    var g := End(p, rank, First(p), order);
    var rest := Rest(p, rank, g);
    FirstSound(p, rank);
    EndSound(p, rank, First(p), order);
    EndSound(p, rank, g, rest);
    AnyOrderPrunes(p, rank, order);
    forall n | n in S
      ensures IsEnding(p, g.live, n) <==> IsEnding(p, Pruned(p, rank), n)
      ensures IsEnding(p, g.live, n) ==> Run(p, Pruned(p, rank), rank, n) == Run(p, g.live, rank, n)
    {
      if IsEnding(p, g.live, n) {
        EndingsStay(p, rank, g, rest, n);
      } else if IsEnding(p, Pruned(p, rank), n) {
        NoNewEndings(p, g.live, Pruned(p, rank), n);
      }
    }
    EndingsInSame(p, rank, g.live, Pruned(p, rank), S, k);
  }

  /**
   A walk that has judged all switches that hang together with the input nodes is left
   with the same part as the pruned graph.
   */
  lemma PartOfPruned<V(!new)>(p: Program<V>, rank: nat -> nat, order: seq<nat>)
    requires WellFormed(p) && Ranked(p, rank) && Legal(p, rank, First(p), order)
    requires forall s :: s in Part(p, End(p, rank, First(p), order).live) && IsSwitch(p, s) ==> s in order
    ensures Part(p, End(p, rank, First(p), order).live) == Part(p, Pruned(p, rank))
  {
    var g := End(p, rank, First(p), order);
    FirstSound(p, rank);
    EndSound(p, rank, First(p), order);
    JudgedInOrder(p, rank, First(p), order);
    AnyOrderPrunes(p, rank, order);
    JudgedPartIsFinal(p, rank, g, Rest(p, rank, g));
  }

  // ---------------------------------------------------------------- what a judged switch keeps

  /** Every remaining out-edge of s is accepted on the input of a single run. */
  ghost predicate Decided<V(!new)>(p: Program<V>, rank: nat -> nat, g: Stage, s: nat)
    requires Ranked(p, rank)
  {
    && IsSwitch(p, s) && s in p.nodes && Grounded(p, rank, g.live, g.judged, s) && InputOf(p, rank, g.live, s).Some?
    && forall e :: e in OutOf(p.edges, g.live, s) ==>
         Accepts(p.sem, p.kinds[s], InputOf(p, rank, g.live, s).value, p.edges[e].handle)
  }

  /** Final nodes that a pruning leaves keep their in-edges. */
  lemma SurvivorsKeepInEdges<V(!new)>(p: Program<V>, rank: nat -> nat, g: Stage, s: nat)
    requires Sound(p, rank, g) && Ready(p, rank, g, s)
    ensures var live' := Judge(p, rank, g, s).live;
      SameIn(p, g.live, live', GroundedNodes(p, rank, g.live, g.judged) * NodesOf(p, live'))
  {
    var live', X := Judge(p, rank, g, s).live, GroundedNodes(p, rank, g.live, g.judged);
    JudgeSound(p, rank, g, s);
    RejectsOutward(p, rank, g.live, g.judged, s);
    forall n | n in X * NodesOf(p, live')
      ensures InOf(p.edges, live', n) == InOf(p.edges, g.live, n)
    {
      SettledKeepInEdges(p.edges, g.live, X, Rejects(p, rank, g.live, s), n);
      NodesAfter(p, g.live, live', n);
    }
    forall e | e in g.live && p.edges[e].target in X * NodesOf(p, live')
      ensures p.edges[e].source in X * NodesOf(p, live')
    {
      assert e in InOf(p.edges, live', p.edges[e].target);
    }
  }

  lemma JudgingKeepsDecided<V(!new)>(p: Program<V>, rank: nat -> nat, g: Stage, s: nat, t: nat)
    requires Sound(p, rank, g) && Ready(p, rank, g, s) && t in NodesOf(p, Judge(p, rank, g, s).live)
    requires t == s || Decided(p, rank, g, t)
    ensures Decided(p, rank, Judge(p, rank, g, s), t)
  {
    var h := Judge(p, rank, g, s);
    var U := GroundedNodes(p, rank, g.live, g.judged) * NodesOf(p, h.live);
    SurvivorsKeepInEdges(p, rank, g, s);
    JudgeSound(p, rank, g, s);
    InputSame(p, rank, g.live, h.live, U, t);
    GroundedSame(p, rank, g.live, h.live, U, g.judged, h.judged, t);
    CascadeClosed(p.edges, g.live, {}, Rejects(p, rank, g.live, s));
    forall e | e in OutOf(p.edges, h.live, t)
      ensures Accepts(p.sem, p.kinds[t], InputOf(p, rank, h.live, t).value, p.edges[e].handle)
    {
      assert e in OutOf(p.edges, g.live, t);
      assert e !in Rejects(p, rank, g.live, s);
    }
  }

  /**
   A judged switch that is left keeps only edges that it accepts on what a single run of
   the remaining graph gives it.
   */
  lemma {:induction false} JudgedAreDecided<V(!new)>(p: Program<V>, rank: nat -> nat, g: Stage, order: seq<nat>, s: nat)
    requires Sound(p, rank, g) && Legal(p, rank, g, order) && s in NodesOf(p, End(p, rank, g, order).live)
    requires s in order || Decided(p, rank, g, s)
    ensures Decided(p, rank, End(p, rank, g, order), s)
    decreases |order|
  {
    if order != [] {
      var h := Judge(p, rank, g, order[0]);
      JudgeSound(p, rank, g, order[0]);
      EndSound(p, rank, h, order[1..]);
      NodesAfter(p, h.live, End(p, rank, g, order).live, s);
      if s == order[0] || s !in order[1..] {
        JudgingKeepsDecided(p, rank, g, order[0], s);
      }
      JudgedAreDecided(p, rank, h, order[1..], s);
    }
  }

  /** In the pruned graph every switch below judged switches that gets an input has decided on it. */
  lemma PrunedIsDecided<V(!new)>(p: Program<V>, rank: nat -> nat, s: nat)
    requires WellFormed(p) && Ranked(p, rank) && IsSwitch(p, s) && s in NodesOf(p, Pruned(p, rank))
    requires var g := End(p, rank, First(p), Rest(p, rank, First(p)));
      Grounded(p, rank, g.live, g.judged, s) && InputOf(p, rank, g.live, s).Some?
    ensures forall e :: e in OutOf(p.edges, Pruned(p, rank), s) ==>
      Accepts(p.sem, p.kinds[s], InputOf(p, rank, Pruned(p, rank), s).value, p.edges[e].handle)
  {
    var order := Rest(p, rank, First(p));
    var g := End(p, rank, First(p), order);
    assert !Ready(p, rank, g, s);
    JudgedInOrder(p, rank, First(p), order);
    FirstSound(p, rank);
    JudgedAreDecided(p, rank, First(p), order, s);
  }

  // ---------------------------------------------------------------- the numbering of the nodes makes no difference

  lemma {:induction false} RunAnyRank<V(!new)>(p: Program<V>, one: nat -> nat, two: nat -> nat, live: set<nat>, n: nat)
    requires Ranked(p, one) && Ranked(p, two) && live <= AllEdges(p)
    ensures Run(p, live, one, n) == Run(p, live, two, n) && InputOf(p, one, live, n) == InputOf(p, two, live, n)
    decreases one(n), 1, 0
  {
    var sources := Predecessors(p.edges, live, n);
    AllPredecessors(p.edges, live, n);
    forall u | u in sources
      ensures one(u) < one(n) && two(u) < two(n)
    {
      var e :| e in InOf(p.edges, live, n) && p.edges[e].source == u;
    }
    RunAllAnyRank(p, one, two, live, one(n), two(n), sources);
  }

  lemma {:induction false} RunAllAnyRank<V(!new)>(p: Program<V>, one: nat -> nat, two: nat -> nat, live: set<nat>,
      b1: nat, b2: nat, nodes: seq<nat>)
    requires Ranked(p, one) && Ranked(p, two) && live <= AllEdges(p)
    requires forall u :: u in nodes ==> one(u) < b1 && two(u) < b2
    ensures RunAll(p, live, one, b1, nodes) == RunAll(p, live, two, b2, nodes)
    decreases b1, 0, |nodes|
  {
    if nodes != [] {
      assert nodes[0] in nodes;
      RunAnyRank(p, one, two, live, nodes[0]);
      RunAllAnyRank(p, one, two, live, b1, b2, nodes[1..]);
    }
  }

  lemma {:induction false} GroundedAnyRank<V(!new)>(p: Program<V>, one: nat -> nat, two: nat -> nat, g: Stage, n: nat)
    requires Ranked(p, one) && Ranked(p, two) && g.live <= AllEdges(p)
    ensures Grounded(p, one, g.live, g.judged, n) == Grounded(p, two, g.live, g.judged, n)
    decreases one(n)
  {
    forall e | e in InOf(p.edges, g.live, n) {
      GroundedAnyRank(p, one, two, g, p.edges[e].source);
    }
  }

  lemma {:induction false} LegalAnyRank<V(!new)>(p: Program<V>, one: nat -> nat, two: nat -> nat, g: Stage,
      order: seq<nat>)
    requires Sound(p, one, g) && Ranked(p, two) && Legal(p, one, g, order)
    ensures Legal(p, two, g, order) && End(p, two, g, order) == End(p, one, g, order)
    decreases |order|
  {
    if order != [] {
      var s := order[0];
      GroundedAnyRank(p, one, two, g, s);
      RunAnyRank(p, one, two, g.live, s);
      JudgeSound(p, one, g, s);
      assert Judge(p, one, g, s) == Judge(p, two, g, s);
      LegalAnyRank(p, one, two, Judge(p, one, g, s), order[1..]);
    }
  }

  lemma StuckAnyRank<V(!new)>(p: Program<V>, one: nat -> nat, two: nat -> nat, g: Stage)
    requires Ranked(p, one) && Ranked(p, two) && g.live <= AllEdges(p) && Stuck(p, one, g)
    ensures Stuck(p, two, g)
  {
    forall s
      ensures !Ready(p, two, g, s)
    {
      assert !Ready(p, one, g, s);
      GroundedAnyRank(p, one, two, g, s);
      RunAnyRank(p, one, two, g.live, s);
    }
  }

  lemma {:induction false} EndingsAnyRank<V(!new)>(p: Program<V>, one: nat -> nat, two: nat -> nat, live: set<nat>,
      S: set<nat>, k: nat)
    requires Ranked(p, one) && Ranked(p, two) && live <= AllEdges(p)
    ensures EndingsIn(p, one, live, S, k) == EndingsIn(p, two, live, S, k)
  {
    if k > 0 {
      EndingsAnyRank(p, one, two, live, S, k - 1);
      RunAnyRank(p, one, two, live, k - 1);
    }
  }

  /** The pruned graph and its result depend on the program and the request only. */
  lemma PrunedAnyRank<V(!new)>(p: Program<V>, one: nat -> nat, two: nat -> nat)
    requires WellFormed(p) && Ranked(p, one) && Ranked(p, two)
    ensures Pruned(p, one) == Pruned(p, two) && PruneThenRun(p, one) == PruneThenRun(p, two)
  {
    var order := Rest(p, one, First(p));
    FirstSound(p, one);
    FirstSound(p, two);
    EndSound(p, one, First(p), order);
    LegalAnyRank(p, one, two, First(p), order);
    StuckAnyRank(p, one, two, End(p, one, First(p), order));
    SameEnd(p, two, First(p), order, Rest(p, two, First(p)));
    EndingsAnyRank(p, one, two, Pruned(p, one), Part(p, Pruned(p, one)), p.count);
  }
}
