/**
 The graph that is left when all switches have been judged. A switch can be judged
 once the switches above it have been; two that can be judged leave each other
 alone. So every order of judgements that goes on until none is left prunes the
 same edges, and the pruned graph depends on the program and the request only.
 */
module PrunedGraph {
  import opened Wrappers
  import opened EdgeCascade
  import opened CascadeLocality
  import opened DecisionProgram

  predicate IsSwitch<V>(p: Program<V>, n: nat) {
    n in p.kinds && p.kinds[n].SwitchNode?
  }

  function AllEdges<V>(p: Program<V>): set<nat> {
    Indices(|p.edges|)
  }

  /** The nodes that are left with the given edges: those that have lost neither side. */
  function NodesOf<V>(p: Program<V>, live: set<nat>): set<nat> {
    p.nodes - Lost(p.edges, p.nodes, AllEdges(p), live)
  }

  /** A node is left unless it had edges in or edges out and has lost them all. */
  lemma NodesExactly<V>(p: Program<V>, live: set<nat>, n: nat)
    requires live <= AllEdges(p)
    ensures n in NodesOf(p, live) <==>
      && n in p.nodes
      && ((exists d: nat :: d < |p.edges| && p.edges[d].target == n) ==>
            exists e :: e in live && p.edges[e].target == n)
      && ((exists d: nat :: d < |p.edges| && p.edges[d].source == n) ==>
            exists e :: e in live && p.edges[e].source == n)
  {
    SomeEdges(p.edges, live, n);
    SomeEdges(p.edges, AllEdges(p), n);
  }

  lemma SomeEdges(edges: seq<Edge>, live: set<nat>, n: nat)
    requires InRange(edges, live)
    ensures InOf(edges, live, n) != {} <==> exists e :: e in live && edges[e].target == n
    ensures OutOf(edges, live, n) != {} <==> exists e :: e in live && edges[e].source == n
  {
    if e :| e in live && edges[e].target == n {
      assert e in InOf(edges, live, n);
    }
    if e :| e in live && edges[e].source == n {
      assert e in OutOf(edges, live, n);
    }
  }

  /** The edges connect nodes that are left. */
  ghost predicate Connects<V>(p: Program<V>, live: set<nat>) {
    live <= AllEdges(p) &&
      forall e :: e in live ==> p.edges[e].source in NodesOf(p, live) && p.edges[e].target in NodesOf(p, live)
  }

  // ---------------------------------------------------------------- judging a switch

  /** All switches above n have been judged, so what is above n is final. */
  ghost predicate Grounded<V(!new)>(p: Program<V>, rank: nat -> nat, live: set<nat>, judged: set<nat>, n: nat)
    requires Ranked(p, rank)
    decreases rank(n)
  {
    forall e :: e in InOf(p.edges, live, n) ==>
      && (IsSwitch(p, p.edges[e].source) ==> p.edges[e].source in judged)
      && Grounded(p, rank, live, judged, p.edges[e].source)
  }

  ghost function GroundedNodes<V(!new)>(p: Program<V>, rank: nat -> nat, live: set<nat>, judged: set<nat>): set<nat>
    requires Ranked(p, rank)
  {
    set n | n in p.nodes && Grounded(p, rank, live, judged, n)
  }

  /** What running the graph once gives n as input. */
  ghost function InputOf<V(!new)>(p: Program<V>, rank: nat -> nat, live: set<nat>, n: nat): Option<V> {
    match RunAll(p, live, rank, rank(n), Predecessors(p.edges, live, n))
    case None => None
    case Some(values) => Some(MergeAll(p.sem, values))
  }

  ghost predicate CanJudge<V(!new)>(p: Program<V>, rank: nat -> nat, live: set<nat>, judged: set<nat>, s: nat)
    requires Ranked(p, rank)
  {
    && IsSwitch(p, s) && s in NodesOf(p, live) && s !in judged
    && Grounded(p, rank, live, judged, s) && InputOf(p, rank, live, s).Some?
  }

  /** The out-edges that the switch does not accept on the input of the single run. */
  ghost function Rejects<V(!new)>(p: Program<V>, rank: nat -> nat, live: set<nat>, s: nat): set<nat>
    requires IsSwitch(p, s) && InputOf(p, rank, live, s).Some?
  {
    set e | e in OutOf(p.edges, live, s) &&
      !Accepts(p.sem, p.kinds[s], InputOf(p, rank, live, s).value, p.edges[e].handle)
  }

  /** The edges left after judging s. */
  ghost function After<V(!new)>(p: Program<V>, rank: nat -> nat, live: set<nat>, s: nat): set<nat>
    requires IsSwitch(p, s) && InputOf(p, rank, live, s).Some?
  {
    live - Cascade(p.edges, live, Rejects(p, rank, live, s))
  }

  lemma RejectsOutward<V(!new)>(p: Program<V>, rank: nat -> nat, live: set<nat>, judged: set<nat>, s: nat)
    requires WellFormed(p) && Ranked(p, rank) && live <= AllEdges(p) && CanJudge(p, rank, live, judged, s)
    ensures Outward(p.edges, live, GroundedNodes(p, rank, live, judged), Rejects(p, rank, live, s))
  {
    var X := GroundedNodes(p, rank, live, judged);
    forall e | e in OutOf(p.edges, live, s)
      ensures p.edges[e].target !in X
    {
      assert e in InOf(p.edges, live, p.edges[e].target);
    }
    forall e | e in live && p.edges[e].target in X
      ensures p.edges[e].source in X
    {
      assert e in InOf(p.edges, live, p.edges[e].target);
    }
  }

  // ---------------------------------------------------------------- what is above a node

  ghost function Cone<V(!new)>(p: Program<V>, rank: nat -> nat, live: set<nat>, n: nat): set<nat>
    requires Ranked(p, rank)
    decreases rank(n)
  {
    {n} + set e, m | e in InOf(p.edges, live, n) && m in Cone(p, rank, live, p.edges[e].source) :: m
  }

  lemma {:induction false} ConeFacts<V(!new)>(p: Program<V>, rank: nat -> nat, live: set<nat>, n: nat)
    requires Ranked(p, rank) && live <= AllEdges(p)
    ensures Upstream(p.edges, live, Cone(p, rank, live, n))
    ensures forall v :: v in Cone(p, rank, live, n) && v != n ==>
      exists e :: e in OutOf(p.edges, live, v) && p.edges[e].target in Cone(p, rank, live, n)
    decreases rank(n)
  {
    var U := Cone(p, rank, live, n);
    forall e | e in InOf(p.edges, live, n) {
      ConeFacts(p, rank, live, p.edges[e].source);
    }
    forall e | e in live && p.edges[e].target in U
      ensures p.edges[e].source in U
    {
      if p.edges[e].target == n {
        assert e in InOf(p.edges, live, n) && p.edges[e].source in Cone(p, rank, live, p.edges[e].source);
      } else {
        var f :| f in InOf(p.edges, live, n) && p.edges[e].target in Cone(p, rank, live, p.edges[f].source);
        assert p.edges[e].source in Cone(p, rank, live, p.edges[f].source);
      }
    }
    forall v | v in U && v != n
      ensures exists e :: e in OutOf(p.edges, live, v) && p.edges[e].target in U
    {
      var f :| f in InOf(p.edges, live, n) && v in Cone(p, rank, live, p.edges[f].source);
      if v == p.edges[f].source {
        assert f in OutOf(p.edges, live, v) && p.edges[f].target in U;
      } else {
        var e :| e in OutOf(p.edges, live, v) && p.edges[e].target in Cone(p, rank, live, p.edges[f].source);
        assert p.edges[e].target in U;
      }
    }
  }

  lemma {:induction false} ConeGrounded<V(!new)>(p: Program<V>, rank: nat -> nat, live: set<nat>, judged: set<nat>,
      n: nat)
    requires WellFormed(p) && Ranked(p, rank) && live <= AllEdges(p) && n in p.nodes &&
      Grounded(p, rank, live, judged, n)
    ensures Cone(p, rank, live, n) <= GroundedNodes(p, rank, live, judged)
    decreases rank(n)
  {
    forall e | e in InOf(p.edges, live, n)
      ensures Cone(p, rank, live, p.edges[e].source) <= GroundedNodes(p, rank, live, judged)
    {
      ConeGrounded(p, rank, live, judged, p.edges[e].source);
    }
  }

  // ---------------------------------------------------------------- what keeps its in-edges keeps its result

  /** The nodes of U have the same in-edges in both graphs. */
  ghost predicate SameIn<V>(p: Program<V>, live: set<nat>, live': set<nat>, U: set<nat>) {
    Upstream(p.edges, live, U) && forall v :: v in U ==> InOf(p.edges, live', v) == InOf(p.edges, live, v)
  }

  lemma SamePredecessors<V>(p: Program<V>, live: set<nat>, live': set<nat>, U: set<nat>, n: nat)
    requires SameIn(p, live, live', U) && n in U
    ensures Predecessors(p.edges, live', n) == Predecessors(p.edges, live, n)
    ensures forall u :: u in Predecessors(p.edges, live, n) ==> u in U
  {
    AllPredecessors(p.edges, live, n);
    InListSame(p.edges, live, live', n, |p.edges|);
  }

  lemma {:induction false} RunSame<V(!new)>(p: Program<V>, rank: nat -> nat, live: set<nat>, live': set<nat>,
      U: set<nat>, n: nat)
    requires SameIn(p, live, live', U) && n in U
    ensures Run(p, live', rank, n) == Run(p, live, rank, n)
    decreases rank(n), 1, 0
  {
    SamePredecessors(p, live, live', U, n);
    RunAllSame(p, rank, live, live', U, rank(n), Predecessors(p.edges, live, n));
  }

  lemma {:induction false} RunAllSame<V(!new)>(p: Program<V>, rank: nat -> nat, live: set<nat>, live': set<nat>,
      U: set<nat>, bound: nat, nodes: seq<nat>)
    requires SameIn(p, live, live', U) && forall u :: u in nodes ==> u in U
    ensures RunAll(p, live', rank, bound, nodes) == RunAll(p, live, rank, bound, nodes)
    decreases bound, 0, |nodes|
  {
    if nodes != [] && rank(nodes[0]) < bound {
      RunSame(p, rank, live, live', U, nodes[0]);
      RunAllSame(p, rank, live, live', U, bound, nodes[1..]);
    }
  }

  lemma InputSame<V(!new)>(p: Program<V>, rank: nat -> nat, live: set<nat>, live': set<nat>, U: set<nat>, n: nat)
    requires SameIn(p, live, live', U) && n in U
    ensures InputOf(p, rank, live', n) == InputOf(p, rank, live, n)
  {
    SamePredecessors(p, live, live', U, n);
    RunAllSame(p, rank, live, live', U, rank(n), Predecessors(p.edges, live, n));
  }

  lemma {:induction false} GroundedSame<V(!new)>(p: Program<V>, rank: nat -> nat, live: set<nat>, live': set<nat>,
      U: set<nat>,
      judged: set<nat>, judged': set<nat>, n: nat)
    requires Ranked(p, rank) && SameIn(p, live, live', U) && n in U && judged <= judged' &&
      Grounded(p, rank, live, judged, n)
    ensures Grounded(p, rank, live', judged', n)
    decreases rank(n)
  {
    forall e | e in InOf(p.edges, live', n)
      ensures Grounded(p, rank, live', judged', p.edges[e].source)
    {
      assert e in InOf(p.edges, live, n);
      GroundedSame(p, rank, live, live', U, judged, judged', p.edges[e].source);
    }
  }

  // ---------------------------------------------------------------- the nodes after a pruning

  lemma NodesAfter<V>(p: Program<V>, live: set<nat>, live': set<nat>, v: nat)
    requires live' <= live <= AllEdges(p)
    ensures v in NodesOf(p, live') <==> v in NodesOf(p, live) && !LostSide(p.edges, live, live', v)
  {
    LostTwice(p.edges, AllEdges(p), live, live', v);
  }

  lemma ConnectsAfter<V>(p: Program<V>, live: set<nat>, seed: set<nat>)
    requires Connects(p, live) && seed <= live
    ensures Connects(p, live - Cascade(p.edges, live, seed))
  {
    var C := Cascade(p.edges, live, seed);
    CascadeClosed(p.edges, live, {}, seed);
    forall e | e in live - C
      ensures p.edges[e].source in NodesOf(p, live - C) && p.edges[e].target in NodesOf(p, live - C)
    {
      EndKeepsSides(p.edges, live, C, e, p.edges[e].source);
      EndKeepsSides(p.edges, live, C, e, p.edges[e].target);
      NodesAfter(p, live, live - C, p.edges[e].source);
      NodesAfter(p, live, live - C, p.edges[e].target);
    }
  }

  /** An end of an edge outside a closed set loses neither side to this set. */
  lemma EndKeepsSides(edges: seq<Edge>, live: set<nat>, C: set<nat>, e: nat, v: nat)
    requires Closed(edges, live, {}, C) && e in live - C && e < |edges|
    requires v == edges[e].source || v == edges[e].target
    ensures !LostSide(edges, live, live - C, v)
  {
    SplitEdges(edges, live, C, v);
    assert e in InOf(edges, live, v) - C || e in OutOf(edges, live, v) - C;
  }

  // ---------------------------------------------------------------- two switches leave each other alone

  /** Judging s leaves everything above t, and t's own edges, as they are. */
  lemma JudgingKeepsOther<V(!new)>(p: Program<V>, rank: nat -> nat, live: set<nat>, judged: set<nat>, s: nat, t: nat)
    requires WellFormed(p) && Ranked(p, rank) && Connects(p, live) && s != t
    requires CanJudge(p, rank, live, judged, s) && CanJudge(p, rank, live, judged, t)
    ensures SameIn(p, live, After(p, rank, live, s), Cone(p, rank, live, t))
    ensures OutOf(p.edges, After(p, rank, live, s), t) == OutOf(p.edges, live, t)
  {
    var X, U, seed := GroundedNodes(p, rank, live, judged), Cone(p, rank, live, t), Rejects(p, rank, live, s);
    RejectsOutward(p, rank, live, judged, s);
    ConeFacts(p, rank, live, t);
    ConeGrounded(p, rank, live, judged, t);
    forall e | e in OutOf(p.edges, live, t)
      ensures p.edges[e].target !in X
    {
      assert e in InOf(p.edges, live, p.edges[e].target);
    }
    OtherKeepsEdges(p.edges, live, X, U, t, seed);
  }

  lemma Diamond<V(!new)>(p: Program<V>, rank: nat -> nat, live: set<nat>, judged: set<nat>, s: nat, t: nat)
    requires WellFormed(p) && Ranked(p, rank) && Connects(p, live) && s != t
    requires CanJudge(p, rank, live, judged, s) && CanJudge(p, rank, live, judged, t)
    ensures CanJudge(p, rank, After(p, rank, live, s), judged + {s}, t)
    ensures Rejects(p, rank, After(p, rank, live, s), t) == Rejects(p, rank, live, t)
  {
    var live', U := After(p, rank, live, s), Cone(p, rank, live, t);
    JudgingKeepsOther(p, rank, live, judged, s, t);
    InputSame(p, rank, live, live', U, t);
    GroundedSame(p, rank, live, live', U, judged, judged + {s}, t);
    NodesAfter(p, live, live', t);
  }

  /** The order of two judgements does not matter. */
  lemma JudgeBoth<V(!new)>(p: Program<V>, rank: nat -> nat, live: set<nat>, judged: set<nat>, s: nat, t: nat)
    requires WellFormed(p) && Ranked(p, rank) && Connects(p, live) && s != t
    requires CanJudge(p, rank, live, judged, s) && CanJudge(p, rank, live, judged, t)
    ensures CanJudge(p, rank, After(p, rank, live, s), judged + {s}, t) &&
      CanJudge(p, rank, After(p, rank, live, t), judged + {t}, s)
    ensures After(p, rank, After(p, rank, live, s), t) == After(p, rank, After(p, rank, live, t), s)
  {
    var rs, rt := Rejects(p, rank, live, s), Rejects(p, rank, live, t);
    Diamond(p, rank, live, judged, s, t);
    Diamond(p, rank, live, judged, t, s);
    JudgingKeepsOther(p, rank, live, judged, s, t);
    JudgingKeepsOther(p, rank, live, judged, t, s);
    CascadeTwice(p.edges, live, rs, rt);
    CascadeTwice(p.edges, live, rt, rs);
    SplitEdges(p.edges, live, Cascade(p.edges, live, rs), t);
    SplitEdges(p.edges, live, Cascade(p.edges, live, rt), s);
    assert rt - Cascade(p.edges, live, rs) == rt && rs - Cascade(p.edges, live, rt) == rs;
    assert rs + rt == rt + rs;
  }
}
