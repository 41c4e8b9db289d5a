/**
 What the driver keeps for any demands, cyclic ones included: no block commits twice,
 every commit is safe, the store is what the commits made of the input, and only what
 is demanded runs.
 */
module DriverSafety {
  import opened PathOrder
  import opened Wrappers
  import opened WriterIndex
  import opened PolicyStore
  import opened PolicyBlocks
  import opened PolicyDriver

  // ---------------------------------------------------------------- every run is safe

  /** What holds even after an error. */
  ghost predicate Recorded<V>(a: Artifact<V>, st: State<V>) {
    && LogOk(a.shape.writers, st.log) && st.store == StoreOf(a.input, st.log)
    && (forall b :: Committed(st.log, b) ==> b in st.ran)
    && st.ran == Elements(st.order) && NoDuplicates(st.order)
  }

  ghost predicate Fine<V>(a: Artifact<V>, st: State<V>) {
    && Recorded(a, st) && st.ran !! st.inProgress
    && forall b :: ReliedOn(st.log, b) ==> b in st.ran || b in st.inProgress
  }

  /** The blocks have finished or are active. */
  ghost predicate Reached<V>(st: State<V>, bs: set<nat>) {
    forall b :: b in bs ==> b in st.ran || b in st.inProgress
  }

  /** What holds at the end; after a success the blocks bs have been reached. */
  ghost predicate Ends<V>(a: Artifact<V>, st: State<V>, ok: bool, bs: set<nat>) {
    Recorded(a, st) && (ok ==> Fine(a, st) && Reached(st, bs))
  }

  /** The writers of what a block relied on. */
  ghost function Relied<V>(k: Shape, x: Inner<V>): set<nat> {
    if x.r.Ok? && x.r.value.Some? then WritersOfAll(k.writers, x.r.value.value.paths) else {}
  }

  lemma ReachedLater<V>(st: State<V>, st': State<V>, bs: set<nat>)
    requires Reached(st, bs) && Advanced(st, st')
    ensures Reached(st', bs)
  {
  }

  lemma {:induction false} BlockKeeps<V>(a: Artifact<V>, st: State<V>, b: nat)
    requires Fine(a, st) && b in Blocks(a.shape.writers)
    ensures var x := BlockRun(a, st, b);
      Ends(a, x.st, x.r.Ok?, {b})
    decreases Left(a.shape, st), 0
  {
    if b !in st.ran && b !in st.inProgress {
      OneLess(a.shape, st, b);
      InnerKeeps(a, Entered(st, b), b);
      ExitKeeps(a, InnerRun(a, Entered(st, b), b), b);
    }
  }

  lemma ExitKeeps<V>(a: Artifact<V>, x: Inner<V>, b: nat)
    requires Ends(a, x.st, x.r.Ok?, Relied(a.shape, x)) && b in x.st.inProgress
    ensures Ends(a, Exited(x, b), x.r.Ok?, {b})
  {
    if x.r.Ok? {
      ExitedOrder(x.st.order, b);
      if x.r.value.Some? {
        var w := x.r.value.value;
        CommitIsSafe(a.shape.writers, Commit(b, w.picks, w.writes, w.paths, x.st.ran, x.st.inProgress));
      }
    }
  }

  lemma ExitedOrder(order: seq<nat>, b: nat)
    requires NoDuplicates(order) && b !in Elements(order)
    ensures NoDuplicates(order + [b]) && Elements(order + [b]) == Elements(order) + {b}
  {
    assert forall i :: 0 <= i < |order| ==> order[i] in Elements(order);
  }

  lemma FirstElement(owners: seq<nat>)
    requires owners != []
    ensures Elements(owners) == {owners[0]} + Elements(owners[1..])
  {
  }

  lemma {:induction false} BlocksKeep<V>(a: Artifact<V>, st: State<V>, owners: seq<nat>)
    requires Fine(a, st) && forall w :: w in owners ==> w in Blocks(a.shape.writers)
    ensures var x := BlocksRun(a, st, owners);
      Ends(a, x.st, x.r.Ok?, Elements(owners))
    decreases Left(a.shape, st), 1, |owners|
  {
    if owners != [] {
      var x := BlockRun(a, st, owners[0]);
      BlockKeeps(a, st, owners[0]);
      FewerLeft(a.shape, st, x.st);
      if x.r.Ok? {
        BlocksKeep(a, x.st, owners[1..]);
        ReachedLater(x.st, BlocksRun(a, x.st, owners[1..]).st, {owners[0]});
        FirstElement(owners);
      }
    }
  }

  lemma {:induction false} PathsKeep<V>(a: Artifact<V>, st: State<V>, paths: seq<Path>)
    requires Fine(a, st)
    ensures var x := PathsRun(a, st, paths);
      Ends(a, x.st, x.r.Ok?, WritersOfAll(a.shape.writers, paths))
    decreases Left(a.shape, st), 3, |paths|
  {
    if paths != [] {
      var x := PathRun(a, st, paths[0]);
      WritersAreIndexed(a.shape, paths[0]);
      BlocksKeep(a, st, WritersOf(a.shape.writers, paths[0]));
      FewerLeft(a.shape, st, x.st);
      if x.r.Ok? {
        PathsKeep(a, x.st, paths[1..]);
        FirstPathWriters(a.shape.writers, paths);
      }
    }
  }

  lemma {:induction false} InnerKeeps<V>(a: Artifact<V>, st: State<V>, b: nat)
    requires Fine(a, st)
    ensures var x := InnerRun(a, st, b);
      Ends(a, x.st, x.r.Ok?, Relied(a.shape, x))
    decreases Left(a.shape, st), 5
  {
    InnerRunIs(a, st, b);
    if b in a.shape.rules {
      var x := PathsRun(a, st, Always(a.shape, b));
      PathsKeep(a, st, Always(a.shape, b));
      if x.r.Ok? {
        SelectedKeeps(a, x.st, b);
      }
    }
  }

  lemma {:induction false} SelectedKeeps<V>(a: Artifact<V>, st: State<V>, b: nat)
    requires Fine(a, st) && Reached(st, WritersOfAll(a.shape.writers, Always(a.shape, b)))
    ensures var x := SelectedRun(a, st, b);
      Ends(a, x.st, x.r.Ok?, Relied(a.shape, x))
    decreases Left(a.shape, st), 4
  {
    var chosen := Selected(a, b, ViewOf(st.store, Always(a.shape, b)));
    if chosen.Ok? && chosen.value.Some? {
      var demanded := DemandedBy(a.shape, b, chosen.value.value);
      PathsKeep(a, st, demanded);
      ReachedLater(st, PathsRun(a, st, demanded).st, WritersOfAll(a.shape.writers, Always(a.shape, b)));
      WritersOfBoth(a.shape.writers, Always(a.shape, b), demanded);
    }
  }

  /** Everything that a committed block read has finished. */
  ghost predicate Complete<V>(writers: Writers, log: Log<V>, ran: set<nat>) {
    forall i, p :: 0 <= i < |Commits(log)| && p in Commits(log)[i].paths ==> Elements(WritersOf(writers, p)) <= ran
  }

  lemma {:induction false} NothingPending<V>(writers: Writers, log: Log<V>, ran: set<nat>)
    requires LogOk(writers, log) && forall b :: ReliedOn(log, b) ==> b in ran
    ensures Complete(writers, log, ran)
  {
    if log.Then? {
      NothingPending(writers, log.before, ran);
      assert forall b :: b in log.last.ran || b in log.last.stack ==> ReliedOn(log, b);
    }
  }

  /**
   Whatever the demands look like, no block commits twice, every commit is safe, and
   the store is what the commits made of the input one after the other; after a
   success, the writers of the roots and of everything read have finished.
   */
  lemma EvaluationIsSafe<V>(a: Artifact<V>, roots: seq<Path>)
    ensures var x := Evaluation(a, roots);
      && LogOk(a.shape.writers, x.st.log) && x.st.store == StoreOf(a.input, x.st.log)
      && (x.r.Ok? ==> WritersOfAll(a.shape.writers, roots) <= x.st.ran && Complete(a.shape.writers, x.st.log, x.st.ran))
  {
    PathsKeep(a, Start(a), roots);
    var x := Evaluation(a, roots);
    if x.r.Ok? {
      NothingPending(a.shape.writers, x.st.log, x.st.ran);
    }
  }

  // ---------------------------------------------------------------- only what is demanded runs

  /** The blocks of D demand blocks of D only, whatever they see. */
  ghost predicate Contains<V(!new)>(a: Artifact<V>, D: set<nat>) {
    forall b :: b in D && b in a.shape.rules ==>
      && WritersOfAll(a.shape.writers, Always(a.shape, b)) <= D
      && forall view: View<V> :: var chosen := Selected(a, b, view);
        chosen.Ok? && chosen.value.Some? ==>
        WritersOfAll(a.shape.writers, DemandedBy(a.shape, b, chosen.value.value)) <= D
  }

  lemma {:induction false} BlockStaysIn<V(!new)>(a: Artifact<V>, st: State<V>, b: nat, D: set<nat>)
    requires Contains(a, D) && b in D && b in Blocks(a.shape.writers)
    ensures BlockRun(a, st, b).st.ran <= st.ran + D
    decreases Left(a.shape, st), 0
  {
    if b !in st.ran && b !in st.inProgress {
      OneLess(a.shape, st, b);
      InnerStaysIn(a, Entered(st, b), b, D);
    }
  }

  lemma {:induction false} BlocksStayIn<V(!new)>(a: Artifact<V>, st: State<V>, owners: seq<nat>, D: set<nat>)
    requires Contains(a, D) && Elements(owners) <= D && forall w :: w in owners ==> w in Blocks(a.shape.writers)
    ensures BlocksRun(a, st, owners).st.ran <= st.ran + D
    decreases Left(a.shape, st), 1, |owners|
  {
    if owners != [] {
      var x := BlockRun(a, st, owners[0]);
      assert owners[0] in Elements(owners);
      BlockStaysIn(a, st, owners[0], D);
      FewerLeft(a.shape, st, x.st);
      if x.r.Ok? {
        BlocksStayIn(a, x.st, owners[1..], D);
      }
    }
  }

  lemma {:induction false} PathsStayIn<V(!new)>(a: Artifact<V>, st: State<V>, paths: seq<Path>, D: set<nat>)
    requires Contains(a, D) && WritersOfAll(a.shape.writers, paths) <= D
    ensures PathsRun(a, st, paths).st.ran <= st.ran + D
    decreases Left(a.shape, st), 3, |paths|
  {
    if paths != [] {
      var x := PathRun(a, st, paths[0]);
      WritersAreIndexed(a.shape, paths[0]);
      FirstPathWriters(a.shape.writers, paths);
      assert WritersOfAll(a.shape.writers, paths[1..]) <= D;
      BlocksStayIn(a, st, WritersOf(a.shape.writers, paths[0]), D);
      FewerLeft(a.shape, st, x.st);
      if x.r.Ok? {
        PathsStayIn(a, x.st, paths[1..], D);
      }
    }
  }

  lemma {:induction false} InnerStaysIn<V(!new)>(a: Artifact<V>, st: State<V>, b: nat, D: set<nat>)
    requires Contains(a, D) && b in D
    ensures InnerRun(a, st, b).st.ran <= st.ran + D
    decreases Left(a.shape, st), 5
  {
    InnerRunIs(a, st, b);
    if b in a.shape.rules {
      var x := PathsRun(a, st, Always(a.shape, b));
      PathsStayIn(a, st, Always(a.shape, b), D);
      if x.r.Ok? {
        SelectedStaysIn(a, x.st, b, D);
      }
    }
  }

  lemma {:induction false} SelectedStaysIn<V(!new)>(a: Artifact<V>, st: State<V>, b: nat, D: set<nat>)
    requires Contains(a, D) && b in D && b in a.shape.rules
    ensures SelectedRun(a, st, b).st.ran <= st.ran + D
    decreases Left(a.shape, st), 4
  {
    var chosen := Selected(a, b, ViewOf(st.store, Always(a.shape, b)));
    if chosen.Ok? && chosen.value.Some? {
      PathsStayIn(a, st, DemandedBy(a.shape, b, chosen.value.value), D);
    }
  }
}
