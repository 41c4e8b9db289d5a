/**
 Judging switches one after the other, in any order in which each can be judged
 when its turn comes. All orders that go on until no switch can be judged end with
 the same edges: the pruned graph.
 */
module PruningOrder {
  import opened Wrappers
  import opened EdgeCascade
  import opened CascadeLocality
  import opened DecisionProgram
  import opened PrunedGraph

  /** The edges that are left and the switches that have been judged. */
  datatype Stage = Stage(live: set<nat>, judged: set<nat>)

  function First<V>(p: Program<V>): Stage {
    Stage(AllEdges(p), {})
  }

  ghost predicate Ready<V(!new)>(p: Program<V>, rank: nat -> nat, g: Stage, s: nat)
    requires Ranked(p, rank)
  {
    CanJudge(p, rank, g.live, g.judged, s)
  }

  ghost function Judge<V(!new)>(p: Program<V>, rank: nat -> nat, g: Stage, s: nat): Stage
    requires Ranked(p, rank) && Ready(p, rank, g, s)
  {
    Stage(After(p, rank, g.live, s), g.judged + {s})
  }

  /** The switches can be judged in this order. */
  ghost predicate Legal<V(!new)>(p: Program<V>, rank: nat -> nat, g: Stage, order: seq<nat>)
    requires Ranked(p, rank)
    decreases |order|
  {
    order == [] || (Ready(p, rank, g, order[0]) && Legal(p, rank, Judge(p, rank, g, order[0]), order[1..]))
  }

  ghost function End<V(!new)>(p: Program<V>, rank: nat -> nat, g: Stage, order: seq<nat>): Stage
    requires Ranked(p, rank) && Legal(p, rank, g, order)
    decreases |order|
  {
    if order == [] then g else End(p, rank, Judge(p, rank, g, order[0]), order[1..])
  }

  ghost predicate Stuck<V(!new)>(p: Program<V>, rank: nat -> nat, g: Stage)
    requires Ranked(p, rank)
  {
    forall s :: !Ready(p, rank, g, s)
  }

  ghost predicate Sound<V(!new)>(p: Program<V>, rank: nat -> nat, g: Stage) {
    WellFormed(p) && Ranked(p, rank) && Connects(p, g.live)
  }

  // ---------------------------------------------------------------- facts about one order

  lemma FirstSound<V(!new)>(p: Program<V>, rank: nat -> nat)
    requires WellFormed(p) && Ranked(p, rank)
    ensures Sound(p, rank, First(p)) && NodesOf(p, AllEdges(p)) == p.nodes
  {
  }

  lemma JudgeSound<V(!new)>(p: Program<V>, rank: nat -> nat, g: Stage, s: nat)
    requires Sound(p, rank, g) && Ready(p, rank, g, s)
    ensures Sound(p, rank, Judge(p, rank, g, s)) && Judge(p, rank, g, s).live <= g.live
  {
    ConnectsAfter(p, g.live, Rejects(p, rank, g.live, s));
  }

  lemma {:induction false} EndSound<V(!new)>(p: Program<V>, rank: nat -> nat, g: Stage, order: seq<nat>)
    requires Sound(p, rank, g) && Legal(p, rank, g, order)
    ensures Sound(p, rank, End(p, rank, g, order)) && End(p, rank, g, order).live <= g.live
    decreases |order|
  {
    if order != [] {
      JudgeSound(p, rank, g, order[0]);
      EndSound(p, rank, Judge(p, rank, g, order[0]), order[1..]);
    }
  }

  lemma Unfold<V(!new)>(p: Program<V>, rank: nat -> nat, g: Stage, order: seq<nat>, s: nat, rest: seq<nat>)
    requires Ranked(p, rank) && Ready(p, rank, g, s) && Legal(p, rank, Judge(p, rank, g, s), rest)
    requires order == [s] + rest
    ensures Legal(p, rank, g, order) && End(p, rank, g, order) == End(p, rank, Judge(p, rank, g, s), rest)
  {
    assert order[1..] == rest;
  }

  lemma FirstApart<T>(a: seq<T>, b: seq<T>)
    requires a != []
    ensures a + b == [a[0]] + (a[1..] + b)
  {
  }

  /** Two orders one after the other: f is where the first ends, h where the second does. */
  lemma {:induction false} LegalThen<V(!new)>(p: Program<V>, rank: nat -> nat, g: Stage, order: seq<nat>, f: Stage,
      more: seq<nat>, h: Stage)
    requires Ranked(p, rank) && Legal(p, rank, g, order) && f == End(p, rank, g, order)
    requires Legal(p, rank, f, more) && h == End(p, rank, f, more)
    ensures Legal(p, rank, g, order + more) && End(p, rank, g, order + more) == h
    decreases |order|
  {
    if order == [] {
      assert order + more == more;
    } else {
      var s, rest := order[0], order[1..];
      LegalThen(p, rank, Judge(p, rank, g, s), rest, f, more, h);
      FirstApart(order, more);
      Unfold(p, rank, g, order + more, s, rest + more);
    }
  }

  lemma LegalAppend<V(!new)>(p: Program<V>, rank: nat -> nat, g: Stage, order: seq<nat>, s: nat)
    requires Ranked(p, rank) && Legal(p, rank, g, order) && Ready(p, rank, End(p, rank, g, order), s)
    ensures Legal(p, rank, g, order + [s])
    ensures End(p, rank, g, order + [s]) == Judge(p, rank, End(p, rank, g, order), s)
  {
    var f := End(p, rank, g, order);
    Unfold(p, rank, f, [s], s, []);
    LegalThen(p, rank, g, order, f, [s], Judge(p, rank, f, s));
  }

  lemma {:induction false} JudgedInOrder<V(!new)>(p: Program<V>, rank: nat -> nat, g: Stage, order: seq<nat>)
    requires Ranked(p, rank) && Legal(p, rank, g, order)
    ensures End(p, rank, g, order).judged == g.judged + Elements(order)
    decreases |order|
  {
    if order != [] {
      JudgedInOrder(p, rank, Judge(p, rank, g, order[0]), order[1..]);
      assert Elements(order) == {order[0]} + Elements(order[1..]);
    }
  }

  // ---------------------------------------------------------------- every order ends the same

  /**
   A switch that can be judged now is judged somewhere in an order that goes on to the
   end, and can be moved to the front.
   */
  lemma {:induction false} BringForward<V(!new)>(p: Program<V>, rank: nat -> nat, g: Stage, order: seq<nat>, s: nat)
    returns (rest: seq<nat>)
    requires Sound(p, rank, g) && Legal(p, rank, g, order) && Stuck(p, rank, End(p, rank, g, order)) &&
      Ready(p, rank, g, s)
    ensures Legal(p, rank, Judge(p, rank, g, s), rest) && |rest| < |order|
    ensures End(p, rank, Judge(p, rank, g, s), rest) == End(p, rank, g, order)
    decreases |order|
  {
    var t := order[0];
    if t == s {
      rest := order[1..];
    } else {
      JudgeBoth(p, rank, g.live, g.judged, s, t);
      JudgeSound(p, rank, g, t);
      var later := BringForward(p, rank, Judge(p, rank, g, t), order[1..], s);
      assert g.judged + {s} + {t} == g.judged + {t} + {s};
      rest := [t] + later;
      assert rest[1..] == later;
    }
  }

  /** Two orders that go on until no switch can be judged leave the same edges. */
  lemma {:induction false} SameEnd<V(!new)>(p: Program<V>, rank: nat -> nat, g: Stage, one: seq<nat>, other: seq<nat>)
    requires Sound(p, rank, g) && Legal(p, rank, g, one) && Stuck(p, rank, End(p, rank, g, one))
    requires Legal(p, rank, g, other) && Stuck(p, rank, End(p, rank, g, other))
    ensures End(p, rank, g, one) == End(p, rank, g, other)
    decreases |one|
  {
    if one == [] {
      assert other == [];
    } else {
      var rest := BringForward(p, rank, g, other, one[0]);
      JudgeSound(p, rank, g, one[0]);
      SameEnd(p, rank, Judge(p, rank, g, one[0]), one[1..], rest);
    }
  }

  // ---------------------------------------------------------------- the pruned graph

  /** Some order that judges all that can still be judged. */
  ghost function Rest<V(!new)>(p: Program<V>, rank: nat -> nat, g: Stage): (order: seq<nat>)
    requires Ranked(p, rank) && WellFormed(p)
    ensures Legal(p, rank, g, order) && Stuck(p, rank, End(p, rank, g, order))
    decreases |p.nodes - g.judged|
  {
    if Stuck(p, rank, g) then []
    else
      var s :| Ready(p, rank, g, s);
      assert p.nodes - g.judged == p.nodes - (g.judged + {s}) + {s};
      [s] + Rest(p, rank, Judge(p, rank, g, s))
  }

  /** The edges that are left when all switches that can be judged have been. */
  ghost function Pruned<V(!new)>(p: Program<V>, rank: nat -> nat): set<nat>
    requires Ranked(p, rank) && WellFormed(p)
  {
    End(p, rank, First(p), Rest(p, rank, First(p))).live
  }

  /** Whatever order a walk has judged switches in, going on from there leads to the pruned graph. */
  lemma AnyOrderPrunes<V(!new)>(p: Program<V>, rank: nat -> nat, order: seq<nat>)
    requires WellFormed(p) && Ranked(p, rank) && Legal(p, rank, First(p), order)
    ensures var g := End(p, rank, First(p), order);
      End(p, rank, g, Rest(p, rank, g)).live == Pruned(p, rank)
  {
    var g := End(p, rank, First(p), order);
    FirstSound(p, rank);
    var rest := Rest(p, rank, g);
    LegalThen(p, rank, First(p), order, g, rest, End(p, rank, g, rest));
    SameEnd(p, rank, First(p), order + rest, Rest(p, rank, First(p)));
  }
}
