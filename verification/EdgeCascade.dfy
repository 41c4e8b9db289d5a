/**
 The pruning cascade of the decision graph: removing an edge removes the
 out-edges of a node that lost its last in-edge and the in-edges of a node that
 lost its last out-edge. The edges removed are the least set closed under these
 two rules, whatever the order of removal.
 */
module EdgeCascade {
  import opened Wrappers

  /** A decision edge; handle names the switch statement it leaves from. */
  datatype Edge = Edge(source: nat, target: nat, handle: Option<string>)

  predicate InRange(edges: seq<Edge>, live: set<nat>) {
    forall e :: e in live ==> e < |edges|
  }

  /** The live edges into node v. */
  function InOf(edges: seq<Edge>, live: set<nat>, v: nat): set<nat> {
    set e | e in live && e < |edges| && edges[e].target == v
  }

  /** The live edges out of node v. */
  function OutOf(edges: seq<Edge>, live: set<nat>, v: nat): set<nat> {
    set e | e in live && e < |edges| && edges[e].source == v
  }

  // ---------------------------------------------------------------- the least closed set

  /**
   R is closed in live: with all in-edges of a node its out-edges are in R, unless
   the node is exempt, and with all out-edges its in-edges are.
   */
  ghost predicate Closed(edges: seq<Edge>, live: set<nat>, exempt: set<nat>, R: set<nat>) {
    && (forall v ::
      v !in exempt && InOf(edges, live, v) != {} && InOf(edges, live, v) <= R ==> OutOf(edges, live, v) <= R)
    && (forall v :: OutOf(edges, live, v) != {} && OutOf(edges, live, v) <= R ==> InOf(edges, live, v) <= R)
  }

  ghost predicate ClosedFrom(edges: seq<Edge>, live: set<nat>, exempt: set<nat>, seed: set<nat>, R: set<nat>) {
    seed <= R && Closed(edges, live, exempt, R)
  }

  /** The least closed set of live edges that contains the seed. */
  ghost function CascadeBut(edges: seq<Edge>, live: set<nat>, exempt: set<nat>, seed: set<nat>): set<nat> {
    set e | e in live && forall R :: ClosedFrom(edges, live, exempt, seed, R) ==> e in R
  }

  ghost function Cascade(edges: seq<Edge>, live: set<nat>, seed: set<nat>): set<nat> {
    CascadeBut(edges, live, {}, seed)
  }

  lemma CascadeLeast(edges: seq<Edge>, live: set<nat>, exempt: set<nat>, seed: set<nat>, R: set<nat>)
    requires ClosedFrom(edges, live, exempt, seed, R)
    ensures CascadeBut(edges, live, exempt, seed) <= R
  {
  }

  lemma EmptyCascade(edges: seq<Edge>, live: set<nat>)
    ensures Cascade(edges, live, {}) == {}
  {
    assert ClosedFrom(edges, live, {}, {}, {});
  }

  lemma CascadeClosed(edges: seq<Edge>, live: set<nat>, exempt: set<nat>, seed: set<nat>)
    requires seed <= live
    ensures ClosedFrom(edges, live, exempt, seed, CascadeBut(edges, live, exempt, seed))
    ensures CascadeBut(edges, live, exempt, seed) <= live
  {
    var C := CascadeBut(edges, live, exempt, seed);
    forall v | v !in exempt && InOf(edges, live, v) != {} && InOf(edges, live, v) <= C
      ensures OutOf(edges, live, v) <= C
    {
      forall e, R | e in OutOf(edges, live, v) && ClosedFrom(edges, live, exempt, seed, R)
        ensures e in R
      {
        assert C <= R;
        assert InOf(edges, live, v) <= R;
      }
    }
    forall v | OutOf(edges, live, v) != {} && OutOf(edges, live, v) <= C
      ensures InOf(edges, live, v) <= C
    {
      forall e, R | e in InOf(edges, live, v) && ClosedFrom(edges, live, exempt, seed, R)
        ensures e in R
      {
        assert C <= R;
        assert OutOf(edges, live, v) <= R;
      }
    }
  }

  /**
   Edge by edge: the cascade holds the seed, with all the edges into the source of an
   edge that edge, and with all the edges out of its target that edge.
   */
  lemma CascadeByEdges(edges: seq<Edge>, live: set<nat>, seed: set<nat>)
    requires seed <= live && InRange(edges, live)
    ensures seed <= Cascade(edges, live, seed) <= live
    ensures var C := Cascade(edges, live, seed);
      && (forall d, e :: d in live && e in live && edges[d].target == edges[e].source && e !in C ==>
            exists k :: k in live && edges[k].target == edges[e].source && k !in C)
      && (forall d, e :: d in live && e in live && edges[d].target == edges[e].source && d !in C ==>
            exists k :: k in live && edges[k].source == edges[d].target && k !in C)
  {
    CascadeClosed(edges, live, {}, seed);
    ByEdges(edges, live, Cascade(edges, live, seed));
  }

  /** It is inside every other set of which that is true. */
  lemma CascadeLeastByEdges(edges: seq<Edge>, live: set<nat>, seed: set<nat>, R: set<nat>)
    requires seed <= R && InRange(edges, live)
    requires forall d, e :: d in live && e in live && edges[d].target == edges[e].source && e !in R ==>
      exists k :: k in live && edges[k].target == edges[e].source && k !in R
    requires forall d, e :: d in live && e in live && edges[d].target == edges[e].source && d !in R ==>
      exists k :: k in live && edges[k].source == edges[d].target && k !in R
    ensures Cascade(edges, live, seed) <= R
  {
    ByEdges(edges, live, R);
  }

  lemma SomeOutside(edges: seq<Edge>, live: set<nat>, R: set<nat>, v: nat)
    requires InRange(edges, live)
    ensures !(InOf(edges, live, v) <= R) <==> exists k :: k in live && edges[k].target == v && k !in R
    ensures !(OutOf(edges, live, v) <= R) <==> exists k :: k in live && edges[k].source == v && k !in R
  {
    if !(InOf(edges, live, v) <= R) {
      var k :| k in InOf(edges, live, v) && k !in R;
    }
    if !(OutOf(edges, live, v) <= R) {
      var k :| k in OutOf(edges, live, v) && k !in R;
    }
    if k :| k in live && edges[k].target == v && k !in R {
      assert k in InOf(edges, live, v);
    }
    if k :| k in live && edges[k].source == v && k !in R {
      assert k in OutOf(edges, live, v);
    }
  }

  /** Whether a set is closed, edge by edge. */
  lemma ByEdges(edges: seq<Edge>, live: set<nat>, R: set<nat>)
    requires InRange(edges, live)
    ensures Closed(edges, live, {}, R) <==>
      && (forall d, e :: d in live && e in live && edges[d].target == edges[e].source && e !in R ==>
            exists k :: k in live && edges[k].target == edges[e].source && k !in R)
      && (forall d, e :: d in live && e in live && edges[d].target == edges[e].source && d !in R ==>
            exists k :: k in live && edges[k].source == edges[d].target && k !in R)
  {
    forall v
      ensures !(InOf(edges, live, v) <= R) <==> exists k :: k in live && edges[k].target == v && k !in R
      ensures !(OutOf(edges, live, v) <= R) <==> exists k :: k in live && edges[k].source == v && k !in R
    {
      SomeOutside(edges, live, R, v);
    }
    forall d, e | d in live && e in live && edges[d].target == edges[e].source
      ensures d in InOf(edges, live, edges[e].source) && e in OutOf(edges, live, edges[e].source)
    {
    }
  }

  /** The cascade of a second seed in what the first left is the rest of the cascade of both. */
  lemma CascadeTwice(edges: seq<Edge>, live: set<nat>, seed: set<nat>, more: set<nat>)
    requires seed <= live && more <= live
    ensures var C := Cascade(edges, live, seed);
      Cascade(edges, live, seed + more) == C + Cascade(edges, live - C, more - C)
  {
    var C := Cascade(edges, live, seed);
    var rest := live - C;
    var D := Cascade(edges, rest, more - C);
    var E := Cascade(edges, live, seed + more);
    CascadeClosed(edges, live, {}, seed);
    CascadeClosed(edges, rest, {}, more - C);
    CascadeClosed(edges, live, {}, seed + more);
    assert Closed(edges, live, {}, C + D) by {
      UnionClosed(edges, live, C, D);
    }
    assert E <= C + D;
    assert ClosedFrom(edges, live, {}, seed, E);
    assert C <= E;
    assert Closed(edges, rest, {}, E - C) by {
      RestClosed(edges, live, C, E);
    }
    assert more - C <= E - C;
    assert D <= E - C;
  }

  lemma SplitEdges(edges: seq<Edge>, live: set<nat>, C: set<nat>, v: nat)
    ensures InOf(edges, live - C, v) == InOf(edges, live, v) - C
    ensures OutOf(edges, live - C, v) == OutOf(edges, live, v) - C
  {
  }

  lemma UnionClosed(edges: seq<Edge>, live: set<nat>, C: set<nat>, D: set<nat>)
    requires Closed(edges, live, {}, C) && Closed(edges, live - C, {}, D)
    ensures Closed(edges, live, {}, C + D)
  {
    forall v
      ensures InOf(edges, live, v) != {} && InOf(edges, live, v) <= C + D ==> OutOf(edges, live, v) <= C + D
      ensures OutOf(edges, live, v) != {} && OutOf(edges, live, v) <= C + D ==> InOf(edges, live, v) <= C + D
    {
      SplitEdges(edges, live, C, v);
      if InOf(edges, live, v) != {} && InOf(edges, live, v) <= C + D && !(InOf(edges, live, v) <= C) {
        assert InOf(edges, live - C, v) != {} && InOf(edges, live - C, v) <= D;
      }
      if OutOf(edges, live, v) != {} && OutOf(edges, live, v) <= C + D && !(OutOf(edges, live, v) <= C) {
        assert OutOf(edges, live - C, v) != {} && OutOf(edges, live - C, v) <= D;
      }
    }
  }

  lemma RestClosed(edges: seq<Edge>, live: set<nat>, C: set<nat>, E: set<nat>)
    requires C <= E && Closed(edges, live, {}, E)
    ensures Closed(edges, live - C, {}, E - C)
  {
    forall v
      ensures InOf(edges, live - C, v) != {} && InOf(edges, live - C, v) <= E - C ==> OutOf(edges, live - C, v) <= E - C
      ensures OutOf(edges, live - C, v) != {} && OutOf(edges, live - C, v) <= E - C ==>
        InOf(edges, live - C, v) <= E - C
    {
      SplitEdges(edges, live, C, v);
      if InOf(edges, live - C, v) != {} && InOf(edges, live - C, v) <= E - C {
        assert InOf(edges, live, v) <= InOf(edges, live - C, v) + C;
      }
      if OutOf(edges, live - C, v) != {} && OutOf(edges, live - C, v) <= E - C {
        assert OutOf(edges, live, v) <= OutOf(edges, live - C, v) + C;
      }
    }
  }

  // ---------------------------------------------------------------- nodes that lose one side

  /** Between two sets of live edges, v lost all its in-edges or all its out-edges. */
  predicate LostSide(edges: seq<Edge>, before: set<nat>, after: set<nat>, v: nat) {
    || (InOf(edges, before, v) != {} && InOf(edges, after, v) == {})
    || (OutOf(edges, before, v) != {} && OutOf(edges, after, v) == {})
  }

  function Lost(edges: seq<Edge>, nodes: set<nat>, before: set<nat>, after: set<nat>): set<nat> {
    set v | v in nodes && LostSide(edges, before, after, v)
  }

  lemma Shrinks(edges: seq<Edge>, before: set<nat>, after: set<nat>, v: nat)
    requires after <= before
    ensures InOf(edges, after, v) <= InOf(edges, before, v)
    ensures OutOf(edges, after, v) <= OutOf(edges, before, v)
  {
  }

  lemma LostTwice(edges: seq<Edge>, a: set<nat>, b: set<nat>, c: set<nat>, v: nat)
    requires c <= b <= a
    ensures LostSide(edges, a, c, v) <==> LostSide(edges, a, b, v) || LostSide(edges, b, c, v)
  {
    Shrinks(edges, a, b, v);
    Shrinks(edges, b, c, v);
  }

  /**
   Every node that lost one side between before and after has lost the other as
   well; nodes of pendingIn are excused for the in-side, of pendingOut for the out-side.
   */
  ghost predicate Settled(edges: seq<Edge>, before: set<nat>, after: set<nat>, pendingIn: set<nat>,
      pendingOut: set<nat>) {
    && (forall v :: v !in pendingIn && InOf(edges, before, v) != {} && InOf(edges, after, v) == {} ==>
      OutOf(edges, after, v) == {})
    && (forall v :: v !in pendingOut && OutOf(edges, before, v) != {} && OutOf(edges, after, v) == {} ==>
      InOf(edges, after, v) == {})
  }

  lemma SettledTwice(edges: seq<Edge>, a: set<nat>, b: set<nat>, c: set<nat>, pendingIn: set<nat>, pendingOut: set<nat>)
    requires c <= b <= a
    requires Settled(edges, a, b, pendingIn, pendingOut) && Settled(edges, b, c, {}, {})
    ensures Settled(edges, a, c, pendingIn, pendingOut)
  {
    forall v
      ensures v !in pendingIn && InOf(edges, a, v) != {} && InOf(edges, c, v) == {} ==> OutOf(edges, c, v) == {}
      ensures v !in pendingOut && OutOf(edges, a, v) != {} && OutOf(edges, c, v) == {} ==> InOf(edges, c, v) == {}
    {
      Shrinks(edges, b, c, v);
    }
  }

  lemma StillThere(edges: seq<Edge>, before: set<nat>, after: set<nat>, v: nat)
    requires after <= before
    ensures InOf(edges, after, v) == {} <==> InOf(edges, before, v) <= before - after
    ensures OutOf(edges, after, v) == {} <==> OutOf(edges, before, v) <= before - after
  {
    assert InOf(edges, after, v) == InOf(edges, before, v) * after;
    assert OutOf(edges, after, v) == OutOf(edges, before, v) * after;
    Apart(InOf(edges, before, v), before, after);
    Apart(OutOf(edges, before, v), before, after);
  }

  lemma Apart(x: set<nat>, b: set<nat>, a: set<nat>)
    requires x <= b && a <= b
    ensures x * a == {} <==> x <= b - a
  {
    if x * a == {} {
      forall i | i in x
        ensures i !in a
      {
        assert i !in x * a;
      }
    } else {
      var i :| i in x * a;
      assert i in x && i !in b - a;
    }
  }

  /** What has been removed is closed when everything is settled. */
  lemma SettledIsClosed(edges: seq<Edge>, before: set<nat>, after: set<nat>)
    requires after <= before && Settled(edges, before, after, {}, {})
    ensures Closed(edges, before, {}, before - after)
  {
    forall v
      ensures InOf(edges, before, v) != {} && InOf(edges, before, v) <= before - after ==>
        OutOf(edges, before, v) <= before - after
      ensures OutOf(edges, before, v) != {} && OutOf(edges, before, v) <= before - after ==>
        InOf(edges, before, v) <= before - after
    {
      StillThere(edges, before, after, v);
    }
  }

  /** How far a removal that began with live0 and nodes0 has come; the pending nodes are still to be looked at. */
  ghost predicate Progress(edges: seq<Edge>, live0: set<nat>, nodes0: set<nat>, live: set<nat>, nodes: set<nat>,
      pendingIn: set<nat>, pendingOut: set<nat>) {
    && live <= live0 && nodes <= nodes0
    && Settled(edges, live0, live, pendingIn, pendingOut)
    && (forall v :: v in nodes0 - nodes ==> LostSide(edges, live0, live, v))
    && (forall v :: v in nodes && LostSide(edges, live0, live, v) ==> v in pendingIn || v in pendingOut)
  }

  lemma ProgressTwice(edges: seq<Edge>, live0: set<nat>, nodes0: set<nat>, live1: set<nat>, nodes1: set<nat>,
      live2: set<nat>, nodes2: set<nat>, pendingIn: set<nat>, pendingOut: set<nat>)
    requires Progress(edges, live0, nodes0, live1, nodes1, pendingIn, pendingOut)
    requires Progress(edges, live1, nodes1, live2, nodes2, {}, {})
    ensures Progress(edges, live0, nodes0, live2, nodes2, pendingIn, pendingOut)
  {
    SettledTwice(edges, live0, live1, live2, pendingIn, pendingOut);
    forall v
      ensures LostSide(edges, live0, live2, v) <==> LostSide(edges, live0, live1, v) || LostSide(edges, live1, live2, v)
    {
      LostTwice(edges, live0, live1, live2, v);
    }
  }

  /** Right after one edge is gone, its target may have lost its in-side and its source its out-side. */
  lemma ProgressAfterEdge(edges: seq<Edge>, live0: set<nat>, nodes: set<nat>, e: nat)
    requires e in live0 && e < |edges|
    ensures Progress(edges, live0, nodes, live0 - {e}, nodes, {edges[e].target}, {edges[e].source})
  {
    forall v
      ensures v != edges[e].target ==> InOf(edges, live0 - {e}, v) == InOf(edges, live0, v)
      ensures v != edges[e].source ==> OutOf(edges, live0 - {e}, v) == OutOf(edges, live0, v)
    {
    }
  }

  /** Nothing is pending: the removed nodes are exactly those that lost a side. */
  lemma ProgressDone(edges: seq<Edge>, live0: set<nat>, nodes0: set<nat>, live: set<nat>, nodes: set<nat>)
    requires Progress(edges, live0, nodes0, live, nodes, {}, {})
    ensures nodes == nodes0 - Lost(edges, nodes0, live0, live)
  {
  }

  /** The target of the first edge removed has lost all its edges. */
  lemma TargetGone(edges: seq<Edge>, live0: set<nat>, nodes0: set<nat>, live: set<nat>, nodes: set<nat>, t: nat, s: nat)
    requires Progress(edges, live0, nodes0, live, nodes, {t}, {s})
    requires InOf(edges, live, t) == {} && InOf(edges, live0, t) != {} && OutOf(edges, live, t) == {}
    ensures Progress(edges, live0, nodes0, live, nodes - {t}, {}, {s})
  {
  }

  lemma TargetKept(edges: seq<Edge>, live0: set<nat>, nodes0: set<nat>, live: set<nat>, nodes: set<nat>, t: nat, s: nat)
    requires Progress(edges, live0, nodes0, live, nodes, {t}, {s})
    requires InOf(edges, live, t) != {} && (t == s || OutOf(edges, live, t) == OutOf(edges, live0, t))
    ensures Progress(edges, live0, nodes0, live, nodes, {}, {s})
  {
  }

  /** The source of the first edge removed has been looked at. */
  lemma SourceDone(edges: seq<Edge>, live0: set<nat>, nodes0: set<nat>, live: set<nat>, nodes: set<nat>, s: nat)
    requires Progress(edges, live0, nodes0, live, nodes, {}, {s})
    requires OutOf(edges, live, s) == {} && OutOf(edges, live0, s) != {} && InOf(edges, live, s) == {}
    ensures Progress(edges, live0, nodes0, live, nodes - {s}, {}, {})
  {
  }

  lemma SourceKept(edges: seq<Edge>, live0: set<nat>, nodes0: set<nat>, live: set<nat>, nodes: set<nat>, s: nat)
    requires Progress(edges, live0, nodes0, live, nodes, {}, {s})
    requires OutOf(edges, live, s) != {}
    requires InOf(edges, live, s) == {} ==> InOf(edges, live0, s) == {} || OutOf(edges, live, s) == {}
    ensures Progress(edges, live0, nodes0, live, nodes, {}, {})
  {
  }

  /** With the last in-edge of a node removed into a closed set, its out-edges belong to the set. */
  lemma LastEdgeIn(edges: seq<Edge>, base: set<nat>, live: set<nat>, R: set<nat>, e: nat)
    requires Closed(edges, base, {}, R) && base - live <= R && live <= base
    requires e in base && e < |edges| && InOf(edges, live, edges[e].target) == {}
    ensures OutOf(edges, live, edges[e].target) <= R
  {
    var t := edges[e].target;
    assert e in InOf(edges, base, t);
    StillThere(edges, base, live, t);
    Shrinks(edges, base, live, t);
  }

  lemma LastEdgeOut(edges: seq<Edge>, base: set<nat>, live: set<nat>, R: set<nat>, e: nat)
    requires Closed(edges, base, {}, R) && base - live <= R && live <= base
    requires e in base && e < |edges| && OutOf(edges, live, edges[e].source) == {}
    ensures InOf(edges, live, edges[e].source) <= R
  {
    var s := edges[e].source;
    assert e in OutOf(edges, base, s);
    StillThere(edges, base, live, s);
    Shrinks(edges, base, live, s);
  }

  // ---------------------------------------------------------------- adjacency lists

  /** The edges into v in adjacency order: the edge added last comes first. */
  function InList(edges: seq<Edge>, live: set<nat>, v: nat, k: nat): (ids: seq<nat>)
    requires k <= |edges|
    ensures forall e :: e in ids <==> e in InOf(edges, live, v) && e < k
    ensures forall i :: 0 <= i < |ids| ==> ids[i] < k
    ensures forall i, j :: 0 <= i < j < |ids| ==> ids[i] > ids[j]
  {
    if k == 0 then []
    else if k - 1 in live && edges[k - 1].target == v then [k - 1] + InList(edges, live, v, k - 1)
    else InList(edges, live, v, k - 1)
  }

  /** The edges out of v in adjacency order. */
  function OutList(edges: seq<Edge>, live: set<nat>, v: nat, k: nat): (ids: seq<nat>)
    requires k <= |edges|
    ensures forall e :: e in ids <==> e in OutOf(edges, live, v) && e < k
    ensures forall i :: 0 <= i < |ids| ==> ids[i] < k
    ensures forall i, j :: 0 <= i < j < |ids| ==> ids[i] > ids[j]
  {
    if k == 0 then []
    else if k - 1 in live && edges[k - 1].source == v then [k - 1] + OutList(edges, live, v, k - 1)
    else OutList(edges, live, v, k - 1)
  }

  // ---------------------------------------------------------------- the graph

  function Indices(n: nat): (r: set<nat>)
    ensures forall e: nat :: e in r <==> e < n
  {
    if n == 0 then {} else Indices(n - 1) + {n - 1}
  }

  class StableGraph {
    const edges: seq<Edge>
    var nodes: set<nat>
    var live: set<nat>

    constructor (edges: seq<Edge>, nodes: set<nat>)
      ensures this.edges == edges && this.nodes == nodes && live == Indices(|edges|)
    {
      this.edges := edges;
      this.nodes := nodes;
      live := Indices(|edges|);
    }

    ghost predicate Valid()
      reads this
    {
      forall e :: e in live ==> e < |edges| && edges[e].source in nodes && edges[e].target in nodes
    }

    /** Removes a node together with the edges that touch it; a missing node is left alone. */
    method RemoveNode(v: nat)
      modifies this
      ensures nodes == old(nodes) - {v}
      ensures live ==
        if v in old(nodes) then old(live) - InOf(edges, old(live), v) - OutOf(edges, old(live), v) else old(live)
    {
      if v in nodes {
        live := live - InOf(edges, live, v) - OutOf(edges, live, v);
        nodes := nodes - {v};
      }
    }

    /** A node without edges takes none with it. */
    method RemoveBareNode(v: nat)
      requires InOf(edges, live, v) == {} && OutOf(edges, live, v) == {}
      modifies this
      ensures nodes == old(nodes) - {v} && live == old(live)
    {
      RemoveNode(v);
    }

    /** Removes an edge and cascades, first forward from its target, then backward from its source. */
    method RemoveEdgeRecursive(e: nat, ghost base: set<nat>, ghost R: set<nat>)
      requires InRange(edges, live) && live <= base
      requires Closed(edges, base, {}, R) && base - live <= R && (e in live ==> e in R)
      modifies this
      ensures live <= old(live) && e !in live && base - live <= R
      ensures Progress(edges, old(live), old(nodes), live, nodes, {}, {})
      decreases |live|, 0
    {
      if e !in live {
        return;
      }
      ghost var live0, nodes0 := live, nodes;
      var s, t := edges[e].source, edges[e].target;
      live := live - {e};
      assert |live| < |live0|;
      ProgressAfterEdge(edges, live0, nodes0, e);
      assert e in InOf(edges, live0, t) && e in OutOf(edges, live0, s);
      LookAtTarget(t, s, e, base, R, live0, nodes0);
      SubsetSize(live, live0 - {e});
      LookAtSource(s, e, base, R, live0, nodes0);
    }

    /** The target of a removed edge: without in-edges its out-edges go, and the node. */
    method LookAtTarget(t: nat, ghost s: nat, ghost e: nat, ghost base: set<nat>, ghost R: set<nat>,
        ghost live0: set<nat>, ghost nodes0: set<nat>)
      requires InRange(edges, live) && live <= base && Closed(edges, base, {}, R) && base - live <= R
      requires e in base && e < |edges| && t == edges[e].target && s == edges[e].source
      requires InOf(edges, live0, t) != {} && (t == s || OutOf(edges, live, t) == OutOf(edges, live0, t))
      requires Progress(edges, live0, nodes0, live, nodes, {t}, {s})
      modifies this
      ensures live <= old(live) && base - live <= R
      ensures Progress(edges, live0, nodes0, live, nodes, {}, {s})
      decreases |live|, 2
    {
      if InOf(edges, live, t) == {} {
        LastEdgeIn(edges, base, live, R, e);
        ghost var live1, nodes1 := live, nodes;
        RemoveAll(OutList(edges, live, t, |edges|), base, R);
        ProgressTwice(edges, live0, nodes0, live1, nodes1, live, nodes, {t}, {s});
        Shrinks(edges, live1, live, t);
        if OutOf(edges, live, t) == {} {
          TargetGone(edges, live0, nodes0, live, nodes, t, s);
          RemoveBareNode(t);
        }
      } else {
        TargetKept(edges, live0, nodes0, live, nodes, t, s);
      }
    }

    /** The source of a removed edge: without out-edges its in-edges go, and the node. */
    method LookAtSource(s: nat, ghost e: nat, ghost base: set<nat>, ghost R: set<nat>, ghost live0: set<nat>,
        ghost nodes0: set<nat>)
      requires InRange(edges, live) && live <= base && Closed(edges, base, {}, R) && base - live <= R
      requires e in base && e < |edges| && s == edges[e].source
      requires OutOf(edges, live0, s) != {}
      requires Progress(edges, live0, nodes0, live, nodes, {}, {s})
      modifies this
      ensures live <= old(live) && base - live <= R
      ensures Progress(edges, live0, nodes0, live, nodes, {}, {})
      decreases |live|, 2
    {
      if OutOf(edges, live, s) == {} {
        LastEdgeOut(edges, base, live, R, e);
        ghost var live1, nodes1 := live, nodes;
        RemoveAll(InList(edges, live, s, |edges|), base, R);
        ProgressTwice(edges, live0, nodes0, live1, nodes1, live, nodes, {}, {s});
        Shrinks(edges, live1, live, s);
        SourceDone(edges, live0, nodes0, live, nodes, s);
        if OutOf(edges, live, s) == {} {
          RemoveBareNode(s);
        }
      } else {
        SourceKept(edges, live0, nodes0, live, nodes, s);
      }
    }

    /** The recursive calls for a list of edges. */
    method RemoveAll(ids: seq<nat>, ghost base: set<nat>, ghost R: set<nat>)
      requires InRange(edges, live) && live <= base
      requires Closed(edges, base, {}, R) && base - live <= R && forall e :: e in ids && e in live ==> e in R
      modifies this
      ensures live <= old(live) && (forall e :: e in ids ==> e !in live) && base - live <= R
      ensures Progress(edges, old(live), old(nodes), live, nodes, {}, {})
      decreases |live|, 1
    {
      ghost var live0, nodes0 := live, nodes;
      var i := 0;
      while i < |ids|
        invariant 0 <= i <= |ids| && live <= live0 && base - live <= R
        invariant forall q :: 0 <= q < i ==> ids[q] !in live
        invariant Progress(edges, live0, nodes0, live, nodes, {}, {})
      {
        ghost var live1, nodes1 := live, nodes;
        SubsetSize(live, live0);
        RemoveEdgeRecursive(ids[i], base, R);
        ProgressTwice(edges, live0, nodes0, live1, nodes1, live, nodes, {}, {});
        i := i + 1;
      }
    }

    /**
     Removes the rejected edges one after the other. What goes is the cascade of
     all of them, and the nodes that go are those that lost all edges on one side.
     */
    method Prune(rejected: seq<nat>)
      requires InRange(edges, live) && forall e :: e in rejected ==> e in live
      modifies this
      ensures live == old(live) - Cascade(edges, old(live), set e | e in rejected)
      ensures nodes == old(nodes) - Lost(edges, old(nodes), old(live), live)
      ensures Settled(edges, old(live), live, {}, {})
    {
      ghost var seed := set e | e in rejected;
      ghost var base := live;
      ghost var R := Cascade(edges, base, seed);
      CascadeClosed(edges, base, {}, seed);
      RemoveAll(rejected, base, R);
      SettledIsClosed(edges, base, live);
      CascadeLeast(edges, base, {}, seed, base - live);
      ProgressDone(edges, base, old(nodes), live, nodes);
    }
  }
}
