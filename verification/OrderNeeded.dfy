/**
 Runs of all blocks one after the other agree for every input, selection and commit
 exactly if conflicting blocks are ordered by what blocks demand.
 */
module OrderNeeded {
  import opened PathOrder
  import opened Wrappers
  import opened WriterIndex
  import opened PolicyStore
  import opened PolicyBlocks
  import opened PolicyRuns
  import opened FixedPolicies

  function AllBlocks(k: Shape): set<nat> {
    k.rules + Blocks(k.writers)
  }

  /** The order runs all blocks, each when it may run. */
  ghost predicate RunsAllBlocks<V>(a: Artifact<V>, may: bool, order: seq<nat>) {
    Safe(a, may, Begin(a), order) && Elements(order) == AllBlocks(a.shape)
  }

  /** Whatever blocks compute, all runs of all blocks end at the same stage. */
  ghost predicate RunsAgree(k: Shape, may: bool) {
    forall a: Artifact<int>, order, order' ::
      a.shape == k && Declares(a) && RunsAllBlocks(a, may, order) && RunsAllBlocks(a, may, order') ==>
      Runs(a, Begin(a), order) == Runs(a, Begin(a), order')
  }

  lemma OrderlyAgree(k: Shape, may: bool)
    requires Orderly(k, may)
    ensures RunsAgree(k, may)
  {
    forall a: Artifact<int>, order, order' |
      a.shape == k && Declares(a) && RunsAllBlocks(a, may, order) && RunsAllBlocks(a, may, order')
      ensures Runs(a, Begin(a), order) == Runs(a, Begin(a), order')
    {
      BeginSettled(a, may);
      SameRuns(a, may, Begin(a), order, order');
    }
  }

  // ---------------------------------------------------------------- an order with one block before another one

  lemma DemandsAreIndexed(k: Shape, c: Choice, b: nat, w: nat)
    requires Demands(k, c, b, w)
    ensures w in Blocks(k.writers)
  {
    var p :| ReadBy(k, c, b, p) && w in WritersOf(k.writers, p);
    assert HasAllWriters(k.writers, Blocks(k.writers));
    WritersAreBlocks(k.writers, Blocks(k.writers), p);
    assert w in Elements(WritersOf(k.writers, p));
  }

  /** A block that does not lead to w can run before it. */
  lemma BlockFirst(k: Shape, c: Choice, rank: nat -> nat, b: nat, w: nat) returns (order: seq<nat>)
    requires Acyclic(k, rank) && Possible(k, c) && b != w && b in AllBlocks(k) && w in AllBlocks(k)
    requires !Leads(k, c, b, w)
    ensures Topological(k, c, {}, order) && Elements(order) == AllBlocks(k) && Earlier(order, b, w)
  {
    var D: set<nat> :| Closed(k, c, D) && NeedsIn(k, c, b, D) && w !in D;
    var S := (D + {b}) * AllBlocks(k);
    forall x, y | x in AllBlocks(k) && Demands(k, c, x, y)
      ensures y in AllBlocks(k)
    {
      DemandsAreIndexed(k, c, x, y);
    }
    assert {} + S == S && {} !! S;
    var first := OrderExists(k, c, rank, {}, S);
    var rest := AllBlocks(k) - S;
    assert S + rest == AllBlocks(k);
    var second := OrderExists(k, c, rank, S, rest);
    order := first + second;
    assert {} + Elements(first) == S;
    TopologicalBoth(k, c, {}, first, second);
    BothElements(first, second, b, w);
  }

  lemma BothElements(first: seq<nat>, second: seq<nat>, b: nat, w: nat)
    requires b in Elements(first) && w in Elements(second)
    ensures Elements(first + second) == Elements(first) + Elements(second) && Earlier(first + second, b, w)
  {
    var i :| 0 <= i < |first| && first[i] == b;
    var j :| 0 <= j < |second| && second[j] == w;
    assert (first + second)[i] == b && (first + second)[|first| + j] == w;
  }

  // ---------------------------------------------------------------- two orders of conflicting blocks differ

  /** b writes at, above or below what w writes or, with these picks, reads. */
  ghost predicate Clash(k: Shape, picks: nat -> seq<Pick>, b: nat, p: Path, w: nat, q: Path) {
    && b != w && p in WritesOf(k, b) && Related(p, q)
    && (q in WritesOf(k, w) || q in Reads(k, w, picks(w)))
  }

  /** What conflicting blocks write, and who watches, to make a difference. */
  function ClashOutput(k: Shape, b: nat, p: Path, w: nat, q: Path): Output {
    if q !in WritesOf(k, w) then map[b := (p, Leaf(0))]
    else if Extends(p, q) then map[b := (p, Object(map[])), w := (q, Leaf(0))]
    else map[b := (p, Leaf(0)), w := (q, Object(map[]))]
  }

  function ClashWatch(k: Shape, w: nat, q: Path): Watch {
    if q in WritesOf(k, w) then Nobody else Watch(w, q)
  }

  lemma ClashIsProper(k: Shape, picks: nat -> seq<Pick>, b: nat, p: Path, w: nat, q: Path)
    requires Possible(k, These(picks)) && Clash(k, picks, b, p, w, q)
    ensures Proper(k, picks, ClashOutput(k, b, p, w, q))
  {
  }

  /** Two writes, one above the other, that leave different stores. */
  lemma WritesClash(p: Path, q: Path, v: Value<int>, u: Value<int>)
    requires Related(p, q)
    requires if Extends(p, q) then v == Object(map[]) && u == Leaf(0) else v == Leaf(0) && u == Object(map[])
    ensures Put(Put(map[], p, v), q, u) != Put(Put(map[], q, u), p, v)
  {
    OrderMatters(map[], p, v, q, u);
  }

  lemma EitherWay(out: Output, b: nat, x: (Path, Value<int>), w: nat, y: (Path, Value<int>))
    requires b != w
    ensures map[b := x, w := y] == map[w := y, b := x]
  {
  }

  /** The store tells which one of two clashing writers was first. */
  lemma FoldClash(k: Shape, b: nat, p: Path, w: nat, q: Path, order: seq<nat>, order': seq<nat>)
    requires b != w && p in WritesOf(k, b) && q in WritesOf(k, w) && Related(p, q)
    requires NoDuplicates(order) && NoDuplicates(order') && Earlier(order, b, w) && Earlier(order', w, b)
    ensures var out := ClashOutput(k, b, p, w, q);
      Fold(k, out, order) != Fold(k, out, order')
  {
    var v: Value<int> := if Extends(p, q) then Object(map[]) else Leaf(0);
    var u: Value<int> := if Extends(p, q) then Leaf(0) else Object(map[]);
    assert ClashOutput(k, b, p, w, q) == map[b := (p, v), w := (q, u)];
    EitherWay(map[], b, (p, v), w, (q, u));
    FoldBoth(k, b, p, v, w, q, u, order);
    FoldBoth(k, w, q, u, b, p, v, order');
    WritesClash(p, q, v, u);
  }

  /** The block that watches sees whether the other one was first. */
  lemma Sighted(k: Shape, b: nat, p: Path, q: Path, order: seq<nat>)
    requires NoDuplicates(order) && b in k.rules && Related(p, q)
    ensures Get(Fold(k, map[b := (p, Leaf(0))], order), q) != Absent <==> b in order
  {
    FoldOnly(k, b, p, Leaf(0), order);
    if b in order {
      PutShows<int>(map[], p, Leaf(0), q);
    }
  }

  lemma BeforeSplit(order: seq<nat>, before: seq<nat>, w: nat, after: seq<nat>, b: nat)
    requires order == before + [w] + after && NoDuplicates(order) && b != w
    ensures NoDuplicates(before)
    ensures Earlier(order, b, w) ==> b in before
    ensures Earlier(order, w, b) ==> b !in before
  {
    assert order[|before|] == w;
    assert forall i :: 0 <= i < |before| ==> order[i] == before[i];
    if Earlier(order, b, w) {
      var i, j :| 0 <= i < j < |order| && order[i] == b && order[j] == w;
      assert j == |before|;
    }
    if Earlier(order, w, b) {
      var i, j :| 0 <= i < j < |order| && order[i] == w && order[j] == b;
      assert i == |before|;
      assert forall n :: 0 <= n < |before| ==> order[n] != order[j];
    }
  }

  /** What the watching block ends with. */
  lemma WatchTurn(k: Shape, picks: nat -> seq<Pick>, b: nat, p: Path, w: nat, q: Path, before: seq<nat>)
    requires Possible(k, These(picks)) && Clash(k, picks, b, p, w, q) && q !in WritesOf(k, w)
    requires NoDuplicates(before) && w !in before
    ensures var a := Fixed(k, picks, ClashOutput(k, b, p, w, q), Watch(w, q));
      ResultAt(a, Runs(a, Begin(a), before), w).Err? <==> b in before
  {
    var out := ClashOutput(k, b, p, w, q);
    var a := Fixed(k, picks, out, Watch(w, q));
    var st := Runs(a, Begin(a), before);
    FixedRuns(k, picks, out, Watch(w, q), before);
    FixedTurn(k, picks, out, Watch(w, q), st, w);
    Sighted(k, b, p, q, before);
  }

  lemma WatchEnds(k: Shape, picks: nat -> seq<Pick>, b: nat, p: Path, w: nat, q: Path, may: bool, order: seq<nat>)
    requires Possible(k, These(picks)) && Clash(k, picks, b, p, w, q) && q !in WritesOf(k, w) && w in order
    requires var a := Fixed(k, picks, ClashOutput(k, b, p, w, q), Watch(w, q));
      Safe(a, may, Begin(a), order)
    ensures var a := Fixed(k, picks, ClashOutput(k, b, p, w, q), Watch(w, q));
      && w in Runs(a, Begin(a), order).results
      && (Earlier(order, b, w) ==> Runs(a, Begin(a), order).results[w].Err?)
      && (Earlier(order, w, b) ==> Runs(a, Begin(a), order).results[w].Ok?)
  {
    var a := Fixed(k, picks, ClashOutput(k, b, p, w, q), Watch(w, q));
    var before, after := SplitAt(order, w);
    SafeOnce(a, may, Begin(a), order);
    BeforeSplit(order, before, w, after, b);
    WatchTurn(k, picks, b, p, w, q, before);
    ResultOf(a, may, Begin(a), before, w, after);
  }

  lemma OrdersDiffer(k: Shape, picks: nat -> seq<Pick>, b: nat, p: Path, w: nat, q: Path, may: bool, order: seq<nat>,
      order': seq<nat>)
    requires Possible(k, These(picks)) && Clash(k, picks, b, p, w, q)
    requires Earlier(order, b, w) && Earlier(order', w, b)
    requires var a := Fixed(k, picks, ClashOutput(k, b, p, w, q), ClashWatch(k, w, q));
      Safe(a, may, Begin(a), order) && Safe(a, may, Begin(a), order')
    ensures var a := Fixed(k, picks, ClashOutput(k, b, p, w, q), ClashWatch(k, w, q));
      Runs(a, Begin(a), order) != Runs(a, Begin(a), order')
  {
    var out, watch := ClashOutput(k, b, p, w, q), ClashWatch(k, w, q);
    var a := Fixed(k, picks, out, watch);
    if q in WritesOf(k, w) {
      FixedRuns(k, picks, out, watch, order);
      FixedRuns(k, picks, out, watch, order');
      SafeOnce(a, may, Begin(a), order);
      SafeOnce(a, may, Begin(a), order');
      FoldClash(k, b, p, w, q, order, order');
    } else {
      WatchEnds(k, picks, b, p, w, q, may, order);
      WatchEnds(k, picks, b, p, w, q, may, order');
    }
  }

  // ---------------------------------------------------------------- exactly when all runs agree

  /** Picks with which conflicting blocks clash: those of the choice, or some that read what one of them may read. */
  lemma PicksThatClash(k: Shape, c: Choice, b: nat, w: nat) returns (picks: nat -> seq<Pick>, p: Path, q: Path)
    requires Possible(k, c) && b != w && Conflict(k, c, b, w)
    ensures Possible(k, These(picks)) && Clash(k, picks, b, p, w, q) && (c.These? ==> picks == c.picks)
  {
    p, q :| p in WritesOf(k, b) && (q in WritesOf(k, w) || ReadBy(k, c, w, q)) && Related(p, q);
    if c.These? {
      picks := c.picks;
    } else {
      forall x
        ensures CanPick(k, x, IDLE)
      {
        IdleReads(k, x);
      }
      var mine := IDLE;
      if q !in WritesOf(k, w) && q !in Always(k, w) {
        var pick :| q in CollectReads(pick, PlanOf(k, w));
        mine := [pick];
        assert CollectAll(mine, PlanOf(k, w)) == CollectReads(pick, PlanOf(k, w)) + CollectAll([], PlanOf(k, w));
        assert q in DemandedBy(k, w, mine);
      }
      picks := (n: nat) => if n == w then mine else IDLE;
    }
  }

  lemma TwoRunsDiffer(a: Artifact<int>, may: bool, order: seq<nat>, order': seq<nat>)
    requires Declares(a) && RunsAllBlocks(a, may, order) && RunsAllBlocks(a, may, order')
    requires Runs(a, Begin(a), order) != Runs(a, Begin(a), order')
    ensures !RunsAgree(a.shape, may)
  {
  }

  /** An order that respects the choice can be run by a policy with these picks. */
  lemma ChoiceIsSafe(k: Shape, may: bool, c: Choice, picks: nat -> seq<Pick>, out: Output, watch: Watch,
      order: seq<nat>)
    requires Possible(k, These(picks)) && (if may then c.Any? else c == These(picks)) && Topological(k, c, {}, order)
    ensures var a := Fixed(k, picks, out, watch);
      Safe(a, may, Begin(a), order)
  {
    var a := Fixed(k, picks, out, watch);
    assert Begin(a).results.Keys == {};
    if may {
      TopologicalIsSafe(a, may, Begin(a), order);
    } else {
      FixedIsSafe(k, picks, out, watch, Begin(a), order);
    }
  }

  /** If conflicting blocks are not ordered, two runs of all blocks differ. */
  lemma DisorderShows(k: Shape, may: bool, c: Choice, rank: nat -> nat, b: nat, w: nat)
    requires Acyclic(k, rank) && Possible(k, c) && c.Any? == may && b != w && Conflict(k, c, b, w)
    requires !Leads(k, c, b, w) && !Leads(k, c, w, b)
    ensures !RunsAgree(k, may)
  {
    var picks, p, q := PicksThatClash(k, c, b, w);
    var order := BlockFirst(k, c, rank, b, w);
    var order' := BlockFirst(k, c, rank, w, b);
    var out, watch := ClashOutput(k, b, p, w, q), ClashWatch(k, w, q);
    ChoiceIsSafe(k, may, c, picks, out, watch, order);
    ChoiceIsSafe(k, may, c, picks, out, watch, order');
    ClashIsProper(k, picks, b, p, w, q);
    FixedDeclares(k, picks, out, watch);
    OrdersDiffer(k, picks, b, p, w, q, may, order, order');
    TwoRunsDiffer(Fixed(k, picks, out, watch), may, order, order');
  }

  /**
   Topological runs of all blocks (may), and runs in which each block runs after the
   writers of what it then reads, agree for every input, selection and commit exactly
   if conflicting blocks are ordered by what blocks demand.
   */
  lemma RunsAgreeIff(k: Shape, may: bool, rank: nat -> nat)
    requires Acyclic(k, rank)
    ensures RunsAgree(k, may) <==> Orderly(k, may)
  {
    if Orderly(k, may) {
      OrderlyAgree(k, may);
    } else {
      var c := Any;
      if !may {
        c :| c.These? && Possible(k, c) && !Ordered(k, c);
      }
      var b, w :| b != w && Conflict(k, c, b, w) && !Leads(k, c, b, w) && !Leads(k, c, w, b);
      DisorderShows(k, may, c, rank, b, w);
    }
  }
}
