/**
 What a pruning leaves alone. X stands for the nodes whose results are final: edges
 into X come from X, and no rejected edge leads there.
 */
module CascadeLocality {
  import opened EdgeCascade

  ghost predicate Upstream(edges: seq<Edge>, live: set<nat>, X: set<nat>) {
    InRange(edges, live) && forall e :: e in live && edges[e].target in X ==> edges[e].source in X
  }

  /** The rejected edges lead out of X. */
  ghost predicate Outward(edges: seq<Edge>, live: set<nat>, X: set<nat>, seed: set<nat>) {
    seed <= live && Upstream(edges, live, X) && forall e :: e in seed ==> edges[e].target !in X
  }

  /**
   In the cascade in which settled nodes do not cascade forward, an edge into one is
   there because all its out-edges are.
   */
  lemma BackwardOnly(edges: seq<Edge>, live: set<nat>, X: set<nat>, seed: set<nat>)
    requires Outward(edges, live, X, seed)
    ensures forall e :: e in CascadeBut(edges, live, X, seed) && edges[e].target in X ==>
      OutOf(edges, live, edges[e].target) != {} &&
      OutOf(edges, live, edges[e].target) <= CascadeBut(edges, live, X, seed)
  {
    var R := CascadeBut(edges, live, X, seed);
    CascadeClosed(edges, live, X, seed);
    var R2 := set e | e in R && (edges[e].target in X ==>
      OutOf(edges, live, edges[e].target) != {} && OutOf(edges, live, edges[e].target) <= R);
    assert Closed(edges, live, X, R2);
    CascadeLeast(edges, live, X, seed, R2);
  }

  /** The exemption makes no difference. */
  lemma ExemptionIdle(edges: seq<Edge>, live: set<nat>, X: set<nat>, seed: set<nat>)
    requires Outward(edges, live, X, seed)
    ensures Cascade(edges, live, seed) == CascadeBut(edges, live, X, seed)
  {
    var R := CascadeBut(edges, live, X, seed);
    CascadeClosed(edges, live, X, seed);
    BackwardOnly(edges, live, X, seed);
    forall v | v in X && InOf(edges, live, v) != {} && InOf(edges, live, v) <= R
      ensures OutOf(edges, live, v) <= R
    {
      var e :| e in InOf(edges, live, v);
      assert e in R && edges[e].target == v;
    }
    assert Closed(edges, live, {}, R);
    CascadeLeast(edges, live, {}, seed, R);
    CascadeClosed(edges, live, {}, seed);
    CascadeLeast(edges, live, X, seed, Cascade(edges, live, seed));
  }

  /** A settled node either keeps all its in-edges through a pruning or loses all its out-edges. */
  lemma SettledKeepInEdges(edges: seq<Edge>, live: set<nat>, X: set<nat>, seed: set<nat>, n: nat)
    requires Outward(edges, live, X, seed)
    requires n in X
    ensures var after := live - Cascade(edges, live, seed);
      InOf(edges, after, n) == InOf(edges, live, n) || LostSide(edges, live, after, n)
  {
    var C := Cascade(edges, live, seed);
    var after := live - C;
    ExemptionIdle(edges, live, X, seed);
    BackwardOnly(edges, live, X, seed);
    CascadeClosed(edges, live, {}, seed);
    SplitEdges(edges, live, C, n);
    if InOf(edges, after, n) != InOf(edges, live, n) {
      var e :| e in InOf(edges, live, n) && e in C;
      assert edges[e].target == n;
      assert OutOf(edges, after, n) == {};
    }
  }

  // ---------------------------------------------------------------- a cone of nodes that stays as it is

  /** Every node of U has an edge that leads to U, or no edge out at all. */
  ghost predicate Anchored(edges: seq<Edge>, live: set<nat>, U: set<nat>) {
    forall v :: v in U ==> OutOf(edges, live, v) == {} || exists e :: e in OutOf(edges, live, v) && edges[e].target in U
  }

  /** No edge into U is removed if U is part of X, comes with what is upstream of it, and is anchored. */
  lemma ConeKeepsInEdges(edges: seq<Edge>, live: set<nat>, X: set<nat>, U: set<nat>, seed: set<nat>)
    requires Outward(edges, live, X, seed) && Upstream(edges, live, U) && U <= X && Anchored(edges, live, U)
    ensures forall e :: e in Cascade(edges, live, seed) ==> edges[e].target !in U
  {
    ExemptionIdle(edges, live, X, seed);
    var R := Cascade(edges, live, seed);
    CascadeClosed(edges, live, X, seed);
    var R' := set e | e in R && edges[e].target !in U;
    forall v | v !in X && InOf(edges, live, v) != {} && InOf(edges, live, v) <= R'
      ensures OutOf(edges, live, v) <= R'
    {
    }
    forall v | OutOf(edges, live, v) != {} && OutOf(edges, live, v) <= R'
      ensures InOf(edges, live, v) <= R'
    {
      assert v !in U;
    }
    CascadeLeast(edges, live, X, seed, R');
  }

  // ---------------------------------------------------------------- judging one switch leaves another alone

  /** Closed, but only nodes of X pass a removal on to their in-edges. */
  ghost predicate ClosedTop(edges: seq<Edge>, live: set<nat>, X: set<nat>, seed: set<nat>, R: set<nat>) {
    && seed <= R
    && (forall v :: InOf(edges, live, v) != {} && InOf(edges, live, v) <= R ==> OutOf(edges, live, v) <= R)
    && (forall v :: v in X && OutOf(edges, live, v) != {} && OutOf(edges, live, v) <= R ==> InOf(edges, live, v) <= R)
  }

  ghost function CascadeTop(edges: seq<Edge>, live: set<nat>, X: set<nat>, seed: set<nat>): set<nat> {
    set e | e in live && forall R :: ClosedTop(edges, live, X, seed, R) ==> e in R
  }

  lemma CascadeTopLeast(edges: seq<Edge>, live: set<nat>, X: set<nat>, seed: set<nat>, R: set<nat>)
    requires ClosedTop(edges, live, X, seed, R)
    ensures CascadeTop(edges, live, X, seed) <= R
  {
  }

  lemma CascadeTopClosed(edges: seq<Edge>, live: set<nat>, X: set<nat>, seed: set<nat>)
    requires seed <= live
    ensures ClosedTop(edges, live, X, seed, CascadeTop(edges, live, X, seed))
  {
    var C := CascadeTop(edges, live, X, seed);
    forall v | InOf(edges, live, v) != {} && InOf(edges, live, v) <= C
      ensures OutOf(edges, live, v) <= C
    {
      forall e, R | e in OutOf(edges, live, v) && ClosedTop(edges, live, X, seed, R)
        ensures e in R
      {
        assert C <= R;
      }
    }
    forall v | v in X && OutOf(edges, live, v) != {} && OutOf(edges, live, v) <= C
      ensures InOf(edges, live, v) <= C
    {
      forall e, R | e in InOf(edges, live, v) && ClosedTop(edges, live, X, seed, R)
        ensures e in R
      {
        assert C <= R;
      }
    }
  }

  /** Outside X an edge is removed only when its source has lost all its in-edges. */
  lemma SourceDead(edges: seq<Edge>, live: set<nat>, X: set<nat>, seed: set<nat>)
    requires seed <= live && Upstream(edges, live, X) && forall e :: e in seed ==> edges[e].source in X
    ensures forall e :: e in CascadeTop(edges, live, X, seed) && edges[e].source !in X ==>
      InOf(edges, live, edges[e].source) != {} && InOf(edges, live, edges[e].source) <= CascadeTop(edges, live, X, seed)
  {
    var R := CascadeTop(edges, live, X, seed);
    CascadeTopClosed(edges, live, X, seed);
    var R' := set e | e in R && (edges[e].source !in X ==>
      InOf(edges, live, edges[e].source) != {} && InOf(edges, live, edges[e].source) <= R);
    assert ClosedTop(edges, live, X, seed, R');
    CascadeTopLeast(edges, live, X, seed, R');
  }

  /** So a cascade that starts in X is no more than that. */
  lemma CascadeWithinTop(edges: seq<Edge>, live: set<nat>, X: set<nat>, seed: set<nat>)
    requires seed <= live && Upstream(edges, live, X) && forall e :: e in seed ==> edges[e].source in X
    ensures Cascade(edges, live, seed) <= CascadeTop(edges, live, X, seed)
  {
    var R := CascadeTop(edges, live, X, seed);
    CascadeTopClosed(edges, live, X, seed);
    SourceDead(edges, live, X, seed);
    forall v | OutOf(edges, live, v) != {} && OutOf(edges, live, v) <= R
      ensures InOf(edges, live, v) <= R
    {
      if v !in X {
        var e :| e in OutOf(edges, live, v);
        assert edges[e].source == v && e in R;
      }
    }
    CascadeLeast(edges, live, {}, seed, R);
  }

  /**
   A node t of X none of whose edges leads to X keeps all its edges when another
   node of X has edges rejected, and all nodes upstream of it keep their in-edges.
   */
  lemma OtherKeepsEdges(edges: seq<Edge>, live: set<nat>, X: set<nat>, U: set<nat>, t: nat, seed: set<nat>)
    requires Outward(edges, live, X, seed) && forall e :: e in seed ==> edges[e].source in X && edges[e].source != t
    requires Upstream(edges, live, U) && U <= X && t in U
    requires forall v :: v in U && v != t ==> exists e :: e in OutOf(edges, live, v) && edges[e].target in U
    requires forall e :: e in OutOf(edges, live, t) ==> edges[e].target !in X
    ensures forall e :: e in Cascade(edges, live, seed) ==> edges[e].target !in U && edges[e].source != t
  {
    var R := CascadeTop(edges, live, X, seed);
    CascadeTopClosed(edges, live, X, seed);
    CascadeWithinTop(edges, live, X, seed);
    var R' := set e | e in R && edges[e].target !in U && edges[e].source != t;
    forall v | InOf(edges, live, v) != {} && InOf(edges, live, v) <= R'
      ensures OutOf(edges, live, v) <= R'
    {
      var e :| e in InOf(edges, live, v);
      assert e in R' && edges[e].target == v;
    }
    forall v | v in X && OutOf(edges, live, v) != {} && OutOf(edges, live, v) <= R'
      ensures InOf(edges, live, v) <= R'
    {
      assert v !in U;
    }
    CascadeTopLeast(edges, live, X, seed, R');
  }

  /** A part of the graph without edges to the rest is left alone when edges of the rest are rejected. */
  lemma PartKeepsEdges(edges: seq<Edge>, live: set<nat>, K: set<nat>, seed: set<nat>)
    requires seed <= live && InRange(edges, live)
    requires forall e :: e in live ==> (edges[e].source in K <==> edges[e].target in K)
    requires forall e :: e in seed ==> edges[e].source !in K
    ensures forall e :: e in Cascade(edges, live, seed) ==> edges[e].source !in K
  {
    var R := Cascade(edges, live, seed);
    CascadeClosed(edges, live, {}, seed);
    var R' := set e | e in R && edges[e].source !in K;
    forall v | InOf(edges, live, v) != {} && InOf(edges, live, v) <= R'
      ensures OutOf(edges, live, v) <= R'
    {
      var e :| e in InOf(edges, live, v);
      assert e in R' && edges[e].target == v;
    }
    forall v | OutOf(edges, live, v) != {} && OutOf(edges, live, v) <= R'
      ensures InOf(edges, live, v) <= R'
    {
      var e :| e in OutOf(edges, live, v);
      assert e in R' && edges[e].source == v;
    }
    CascadeLeast(edges, live, {}, seed, R');
  }
}
