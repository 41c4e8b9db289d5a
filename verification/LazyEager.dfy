/**
 Evaluation on demand against runs of all blocks one after the other: when they leave
 the same store, and when they show the same at a path.
 */
module LazyEager {
  import opened PathOrder
  import opened Wrappers
  import opened WriterIndex
  import opened PolicyStore
  import opened PolicyBlocks
  import opened PolicyRuns
  import opened PolicyDriver
  import opened DriverSafety
  import opened CommitReasons
  import opened DriverAgrees
  import opened FixedPolicies
  import opened FixedDriver
  import opened OrderNeeded

  // ---------------------------------------------------------------- an evaluation against a run of all blocks

  /** Only indexed blocks run. */
  lemma OnlyIndexedRun<V(!new)>(a: Artifact<V>, roots: seq<Path>)
    ensures Evaluation(a, roots).st.ran <= Blocks(a.shape.writers)
  {
    var D := Blocks(a.shape.writers);
    AllIndexed(a.shape, roots);
    forall b | b in D && b in a.shape.rules
      ensures WritersOfAll(a.shape.writers, Always(a.shape, b)) <= D
    {
      AllIndexed(a.shape, Always(a.shape, b));
    }
    forall b, picks: seq<Pick> | b in D
      ensures WritersOfAll(a.shape.writers, DemandedBy(a.shape, b, picks)) <= D
    {
      AllIndexed(a.shape, DemandedBy(a.shape, b, picks));
    }
    PathsStayIn(a, Start(a), roots, D);
  }

  lemma AllIndexed(k: Shape, paths: seq<Path>)
    ensures WritersOfAll(k.writers, paths) <= Blocks(k.writers)
  {
    forall w | w in WritersOfAll(k.writers, paths)
      ensures w in Blocks(k.writers)
    {
      var i := WritersOfAllFrom(k.writers, paths, w);
      WritersAreIndexed(k, paths[i]);
    }
  }

  /** Blocks that write nothing near a path do not change what it shows. */
  lemma {:induction false} StoreStays<V(!new)>(a: Artifact<V>, st: Stage<V>, order: seq<nat>, r: Path)
    requires Declares(a) && forall y, p :: y in order && p in WritesOf(a.shape, y) ==> !Related(p, r)
    ensures Get(Runs(a, st, order).store, r) == Get(st.store, r)
    decreases |order|
  {
    if order != [] {
      WroteDeclared(a, st, order[0]);
      ApplyElsewhere(st.store, Wrote(ResultAt(a, st, order[0])), r);
      StoreStays(a, After(a, st, order[0]), order[1..], r);
    }
  }

  /** All blocks that write at, above or below r have run. */
  ghost predicate Settles(k: Shape, ran: set<nat>, r: Path) {
    forall w, p :: p in WritesOf(k, w) && Related(p, r) ==> w in ran
  }

  /** The run of all blocks goes on from where an evaluation has ended, with the blocks that have not run. */
  lemma GoesOn<V(!new)>(a: Artifact<V>, ref: Reference, roots: seq<Path>) returns (more: seq<nat>)
    requires IsReference(a, ref) && Evaluation(a, roots).r.Ok?
    ensures Follows(a, Evaluation(a, roots).st) && forall x :: x in more ==> x !in Evaluation(a, roots).st.ran
    ensures var run := Runs(a, Begin(a), Evaluation(a, roots).st.order);
      Runs(a, run, more) == Runs(a, Begin(a), ref.order)
  {
    var st := Evaluation(a, roots).st;
    EvaluationFollows(a, ref, roots);
    OnlyIndexedRun(a, roots);
    PathsKeep(a, Start(a), roots);
    BeginSettled(a, false);
    var rest;
    more, rest := Join(a, false, Begin(a), st.order, ref.order);
    assert forall x :: x in st.order <==> x in Elements(st.order);
    assert forall x :: x in ref.order <==> x in Elements(ref.order);
    HasElement(rest);
  }

  /** Where all that write there have run, an evaluation shows what the run of all blocks shows. */
  lemma ShowsTheSame<V(!new)>(a: Artifact<V>, ref: Reference, roots: seq<Path>, r: Path)
    requires IsReference(a, ref) && Evaluation(a, roots).r.Ok? && Settles(a.shape, Evaluation(a, roots).st.ran, r)
    ensures Get(Evaluation(a, roots).st.store, r) == Get(Runs(a, Begin(a), ref.order).store, r)
  {
    var more := GoesOn(a, ref, roots);
    StoreStays(a, Runs(a, Begin(a), Evaluation(a, roots).st.order), more, r);
  }

  /** The evaluation fails exactly if a run of all blocks has an error, and otherwise leaves the same store. */
  ghost predicate AgreesWith<V>(a: Artifact<V>, order: seq<nat>, roots: seq<Path>) {
    var x, run := Evaluation(a, roots), Runs(a, Begin(a), order);
    (x.r.Ok? <==> AllOk(run.results, Elements(order))) && (x.r.Ok? ==> x.st.store == run.store)
  }

  /** An evaluation that demands everything agrees with every run of all blocks. */
  lemma DemandsAll<V(!new)>(a: Artifact<V>, ref: Reference, roots: seq<Path>)
    requires IsReference(a, ref) && Elements(ref.order) <= WritersOfAll(a.shape.writers, roots)
    ensures AgreesWith(a, ref.order, roots)
  {
    var st := Evaluation(a, roots).st;
    EvaluationFollows(a, ref, roots);
    OnlyIndexedRun(a, roots);
    AllIndexed(a.shape, roots);
    NoError(a.shape, ResultsOf(a, ref), roots);
    PathsKeep(a, Start(a), roots);
    if Evaluation(a, roots).r.Ok? {
      BeginSettled(a, false);
      assert Elements(st.order) == Elements(ref.order);
      SameRuns(a, false, Begin(a), st.order, ref.order);
    }
  }

  /** Topological runs are runs on demand. */
  lemma {:induction false} MayIsSafe<V>(a: Artifact<V>, st: Stage<V>, order: seq<nat>)
    requires Safe(a, true, st, order)
    ensures Safe(a, false, st, order)
    decreases |order|
  {
    if order != [] {
      PicksAtCan(a, st, order[0]);
      ActualNeeds(a.shape, false, Only(PicksAt(a, st, order[0])), order[0], st.results.Keys);
      MayIsSafe(a, After(a, st, order[0]), order[1..]);
    }
  }

  /**
   An evaluation demands its roots in order. Whatever the demands look like, no
   block commits twice, every commit is safe, and the store is what the commits made
   of the input one after the other; after a success, everything read has finished.
   Against a run of all blocks, where there are no cyclic demands and conflicting
   blocks are ordered: the error is the first one among the writers of the roots, and
   a path shows the same if all blocks that write at, above or below it have run.
   If everything is demanded, the stores are the same.
   */
  method EvaluateRoots<V(!new)>(a: Artifact<V>, roots: seq<Path>, ghost ref: Option<Reference>)
    returns (r: Fallible<()>, store: Store<V>, ghost st: State<V>)
    requires ref.Some? ==> IsReference(a, ref.value)
    ensures Reply(st, r) == Evaluation(a, roots) && store == st.store
    ensures store == StoreOf(a.input, st.log) && LogOk(a.shape.writers, st.log)
    ensures AllReasoned(a, st.log) && AllFinished(a, st) && (r.Err? ==> Caused(a, st.log, r.error))
    ensures r.Ok? ==> forall i, w :: 0 <= i < |roots| && w in WritersOf(a.shape.writers, roots[i]) ==> w in st.ran
    ensures r.Ok? ==> Complete(a.shape.writers, st.log, st.ran) && UsedReadsFinished(a, st)
    ensures ref.Some? ==> ErrorOf(r) == FirstError(a.shape, ResultsOf(a, ref.value), roots)
    ensures ref.Some? && r.Ok? ==> forall p | Settles(a.shape, st.ran, p) ::
      Get(store, p) == Get(Runs(a, Begin(a), ref.value.order).store, p)
    ensures ref.Some? && Elements(ref.value.order) <= WritersOfAll(a.shape.writers, roots) ==>
      AgreesWith(a, ref.value.order, roots)
  {
    var driver := new Driver(a);
    r := driver.DemandPaths(roots);
    store, st := driver.store, driver.St();
    EvaluationIsSafe(a, roots);
    EvaluationHasReasons(a, roots);
    if r.Ok? {
      UsedFinished(a, st);
      RootsFinished(a.shape.writers, roots, st.ran);
    }
    if ref.Some? {
      EvaluationFollows(a, ref.value, roots);
      forall p | r.Ok? && Settles(a.shape, st.ran, p)
        ensures Get(store, p) == Get(Runs(a, Begin(a), ref.value.order).store, p)
      {
        ShowsTheSame(a, ref.value, roots, p);
      }
      if Elements(ref.value.order) <= WritersOfAll(a.shape.writers, roots) {
        DemandsAll(a, ref.value, roots);
      }
    }
  }

  lemma RootsFinished(writers: Writers, roots: seq<Path>, ran: set<nat>)
    requires WritersOfAll(writers, roots) <= ran
    ensures forall i, w :: 0 <= i < |roots| && w in WritersOf(writers, roots[i]) ==> w in ran
  {
    forall i, w | 0 <= i < |roots| && w in WritersOf(writers, roots[i])
      ensures w in ran
    {
      WritersOfAllHas(writers, roots, i);
      assert w in Elements(WritersOf(writers, roots[i]));
    }
  }

  /** Exclusive blocks whose reads the index covers are ordered: what conflicts with a read is demanded by it. */
  lemma ExclusiveIsOrderly(k: Shape, may: bool)
    requires Exclusive(k.writes) && Indexed(k.writers, k.writes)
    requires forall b, p :: MayRead(k, b, p) ==> Covered(k.writers, k.writes, p)
    ensures Orderly(k, may)
  {
    forall c: Choice | Possible(k, c)
      ensures Ordered(k, c)
    {
      forall b, w | b != w && Conflict(k, c, b, w)
        ensures Leads(k, c, w, b)
      {
        var p, q :| p in WritesOf(k, b) && (q in WritesOf(k, w) || ReadBy(k, c, w, q)) && Related(p, q);
        if q !in WritesOf(k, w) {
          if c.These? {
            ReadsAreMayReads(k, w, c.picks(w), q);
          }
          DemandRunsAll(k.writers, k.writes, q, b, p);
          assert Demands(k, c, w, b);
        }
      }
    }
  }

  // ---------------------------------------------------------------- exactly when the driver agrees

  /** Every block is the first writer of some path. */
  ghost predicate Heads(k: Shape) {
    forall b :: b in Blocks(k.writers) ==> exists p :: HeadOf(k, p, b)
  }

  predicate HeadOf(k: Shape, p: Path, b: nat) {
    WritersOf(k.writers, p) != [] && WritersOf(k.writers, p)[0] == b
  }

  /** The index that is computed from what blocks write is like this. */
  lemma IndexHeads(k: Shape, owners: map<Path, nat>, writes: seq<Write>, dataModel: Path -> bool)
    requires IsIndexOf(k.writers, owners, writes, dataModel)
    ensures Heads(k)
  {
    forall b | b in Blocks(k.writers)
      ensures exists p :: HeadOf(k, p, b)
    {
      var p := OwnersHead(k.writers, owners, writes, dataModel, b);
      assert HeadOf(k, p, b);
    }
  }

  /** Whatever blocks compute, an evaluation that demands every indexed block agrees with every topological run. */
  ghost predicate DriverAgreesAlways(k: Shape) {
    forall a: Artifact<int>, order, roots ::
      a.shape == k && Declares(a) && RunsAllBlocks(a, true, order) &&
      Blocks(k.writers) <= WritersOfAll(k.writers, roots) ==>
      AgreesWith(a, order, roots)
  }

  lemma OrderlyDriverAgrees(k: Shape, rank: nat -> nat)
    requires Acyclic(k, rank) && k.rules <= Blocks(k.writers) && Orderly(k, false)
    ensures DriverAgreesAlways(k)
  {
    forall a: Artifact<int>, order, roots |
      a.shape == k && Declares(a) && RunsAllBlocks(a, true, order) &&
      Blocks(k.writers) <= WritersOfAll(k.writers, roots)
      ensures AgreesWith(a, order, roots)
    {
      MayIsSafe(a, Begin(a), order);
      DemandsAll(a, Reference(rank, order), roots);
    }
  }

  /** Roots that demand everything. */
  lemma {:induction false} RootsFor(k: Shape, keys: set<Path>) returns (roots: seq<Path>)
    requires keys <= k.writers.Keys
    ensures forall p :: p in keys ==> p in roots
  {
    if keys == {} {
      roots := [];
    } else {
      var p :| p in keys;
      roots := RootsFor(k, keys - {p});
      roots := [p] + roots;
    }
  }

  lemma RootsForAll(k: Shape) returns (roots: seq<Path>)
    ensures Blocks(k.writers) <= WritersOfAll(k.writers, roots)
  {
    roots := RootsFor(k, k.writers.Keys);
    forall b | b in Blocks(k.writers)
      ensures b in WritersOfAll(k.writers, roots)
    {
      var p :| p in k.writers && b in k.writers[p];
      var i :| 0 <= i < |roots| && roots[i] == p;
      assert WritersOf(k.writers, p) == k.writers[p];
      WritersOfAllHas(k.writers, roots, i);
    }
  }

  lemma TopologicalRunExists(k: Shape, rank: nat -> nat, a: Artifact<int>) returns (order: seq<nat>)
    requires Acyclic(k, rank) && a.shape == k
    ensures RunsAllBlocks(a, true, order)
  {
    forall x, y | x in AllBlocks(k) && Demands(k, Any, x, y)
      ensures y in AllBlocks(k)
    {
      DemandsAreIndexed(k, Any, x, y);
    }
    assert {} + AllBlocks(k) == AllBlocks(k);
    order := OrderExists(k, Any, rank, {}, AllBlocks(k));
    assert Begin(a).results.Keys == {};
    TopologicalIsSafe(a, true, Begin(a), order);
  }

  /** Two evaluations that demand everything cannot both agree with a topological run if they end differently. */
  lemma EndsDiffer(k: Shape, rank: nat -> nat, a: Artifact<int>, roots: seq<Path>, roots': seq<Path>)
    requires Acyclic(k, rank) && a.shape == k && Declares(a)
    requires Blocks(k.writers) <= WritersOfAll(k.writers, roots) && Blocks(k.writers) <= WritersOfAll(k.writers, roots')
    requires var x, x' := Evaluation(a, roots), Evaluation(a, roots');
      x.r.Ok? != x'.r.Ok? || (x.r.Ok? && x'.r.Ok? && x.st.store != x'.st.store)
    ensures !DriverAgreesAlways(k)
  {
    var order := TopologicalRunExists(k, rank, a);
    assert !AgreesWith(a, order, roots) || !AgreesWith(a, order, roots');
  }

  // ---------------------------------------------------------------- exactly when a path shows the same

  /** With this choice the roots lead to w. */
  ghost predicate InReach(k: Shape, c: Choice, roots: seq<Path>, w: nat) {
    forall D: set<nat> :: Closed(k, c, D) && WritersOfAll(k.writers, roots) <= D ==> w in D
  }

  /** Whatever is picked, the roots lead to all blocks that write at, above or below r. */
  ghost predicate Covers(k: Shape, roots: seq<Path>, r: Path) {
    forall c: Choice, w, p ::
      c.These? && Possible(k, c) && p in WritesOf(k, w) && Related(p, r) ==> InReach(k, c, roots, w)
  }

  /** Whatever blocks compute, a successful evaluation shows at r what every topological run of all blocks shows. */
  ghost predicate ShowsAlways(k: Shape, roots: seq<Path>, r: Path) {
    forall a: Artifact<int>, order ::
      a.shape == k && Declares(a) && RunsAllBlocks(a, true, order) && Evaluation(a, roots).r.Ok? ==>
      Get(Evaluation(a, roots).st.store, r) == Get(Runs(a, Begin(a), order).store, r)
  }

  /** All that the roots lead to has run. */
  lemma CoveredSettles<V(!new)>(a: Artifact<V>, ref: Reference, roots: seq<Path>, r: Path)
    requires IsReference(a, ref) && Evaluation(a, roots).r.Ok? && Covers(a.shape, roots, r)
    ensures Settles(a.shape, Evaluation(a, roots).st.ran, r)
  {
    var st := Evaluation(a, roots).st;
    EvaluationFollows(a, ref, roots);
    BeginSettled(a, false);
    RunsSettle(a, false, Begin(a), st.order);
    var c := These(PicksOf(Runs(a, Begin(a), st.order)));
    forall w, p | p in WritesOf(a.shape, w) && Related(p, r)
      ensures w in st.ran
    {
      assert InReach(a.shape, c, roots, w);
    }
  }

  lemma NotCoveredShows(k: Shape, rank: nat -> nat, roots: seq<Path>, r: Path, c: Choice, w: nat, p: Path)
    requires Acyclic(k, rank) && c.These? && Possible(k, c) && p in WritesOf(k, w) && Related(p, r)
    requires !InReach(k, c, roots, w)
    ensures !ShowsAlways(k, roots, r)
  {
    var D: set<nat> :| Closed(k, c, D) && WritersOfAll(k.writers, roots) <= D && w !in D;
    var x := Case(k, c.picks, map[w := (p, Leaf(0))], Nobody);
    var a := x.Policy();
    FixedDeclares(k, c.picks, x.out, Nobody);
    x.PicksContain(D);
    PathsStayIn(a, Start(a), roots, D);
    x.EvaluationKept(roots);
    InElements(Evaluation(a, roots).st.order, w);
    FoldOnly(k, w, p, Leaf(0), Evaluation(a, roots).st.order);
    var order := TopologicalRunExists(k, rank, a);
    SafeOnce(a, true, Begin(a), order);
    FixedRuns(k, c.picks, x.out, Nobody, order);
    InElements(order, w);
    FoldOnly(k, w, p, Leaf(0), order);
    PutShows<int>(map[], p, Leaf(0), r);
  }

  /**
   Where conflicting blocks are ordered, a path shows after an evaluation what it shows
   after every topological run of all blocks, whatever blocks compute, exactly if the
   roots lead to all blocks that write at, above or below it whatever is picked.
   */
  lemma ShowsIff(k: Shape, rank: nat -> nat, roots: seq<Path>, r: Path)
    requires Acyclic(k, rank) && Orderly(k, false)
    ensures ShowsAlways(k, roots, r) <==> Covers(k, roots, r)
  {
    if Covers(k, roots, r) {
      forall a: Artifact<int>, order |
        a.shape == k && Declares(a) && RunsAllBlocks(a, true, order) && Evaluation(a, roots).r.Ok?
        ensures Get(Evaluation(a, roots).st.store, r) == Get(Runs(a, Begin(a), order).store, r)
      {
        MayIsSafe(a, Begin(a), order);
        CoveredSettles(a, Reference(rank, order), roots, r);
        ShowsTheSame(a, Reference(rank, order), roots, r);
      }
    } else {
      var c: Choice, w, p :|
        c.These? && Possible(k, c) && p in WritesOf(k, w) && Related(p, r) && !InReach(k, c, roots, w);
      NotCoveredShows(k, rank, roots, r, c, w, p);
    }
  }

  // ---------------------------------------------------------------- a block that is not indexed

  lemma NotIndexedShows(k: Shape, rank: nat -> nat, b: nat)
    requires Acyclic(k, rank) && b in k.rules && b !in Blocks(k.writers)
    ensures !DriverAgreesAlways(k)
  {
    var x := Case(k, Only(IDLE), map[], Failing(b));
    forall n
      ensures CanPick(k, n, IDLE)
    {
      IdleReads(k, n);
    }
    var roots := RootsForAll(k);
    x.EvaluationKept(roots);
    FixedDeclares(k, Only(IDLE), map[], Failing(b));
    var a := x.Policy();
    var order := TopologicalRunExists(k, rank, a);
    assert b in Elements(order);
    FailingFails(x, order, b);
    assert !AgreesWith(a, order, roots);
  }

  lemma FailingFails(x: Case, order: seq<nat>, b: nat)
    requires x.Valid() && x.watch == Failing(b) && b in order && b in x.k.rules
    requires Safe(x.Policy(), true, Begin(x.Policy()), order)
    ensures b in Runs(x.Policy(), Begin(x.Policy()), order).results
    ensures Runs(x.Policy(), Begin(x.Policy()), order).results[b].Err?
  {
    var a := x.Policy();
    var before, after := SplitAt(order, b);
    FixedRuns(x.k, x.picks, x.out, x.watch, before);
    FixedTurn(x.k, x.picks, x.out, x.watch, Runs(a, Begin(a), before), b);
    ResultOf(a, true, Begin(a), before, b, after);
  }

  // ---------------------------------------------------------------- conflicting blocks that are not ordered

  /** Demanding first a path whose first writer is b starts with b. */
  lemma HeadRuns<V>(a: Artifact<V>, p: Path, b: nat, more: seq<Path>)
    requires HeadOf(a.shape, p, b) && b in Blocks(a.shape.writers)
    ensures var all, y := Evaluation(a, [p] + more), BlockRun(a, Start(a), b);
      (y.r.Err? ==> all == y) && (y.r.Ok? ==> Advanced(y.st, all.st))
  {
    var st, owners, paths := Start(a), WritersOf(a.shape.writers, p), [p] + more;
    WritersAreIndexed(a.shape, p);
    assert paths[0] == p && paths[1..] == more;
    var y, z := BlockRun(a, st, b), PathRun(a, st, p);
    assert z == BlocksRun(a, st, owners);
    assert z == if y.r.Err? then y else BlocksRun(a, y.st, owners[1..]);
    assert PathsRun(a, st, paths) == if z.r.Err? then z else PathsRun(a, z.st, more);
  }

  /** A block runs only blocks that it leads to. */
  lemma RunsWhatItLeadsTo(x: Case, b: nat, w: nat)
    requires x.Valid() && b in Blocks(x.k.writers) && b != w && !Leads(x.k, These(x.picks), b, w)
    ensures w !in BlockRun(x.Policy(), Start(x.Policy()), b).st.ran
  {
    var D: set<nat> :| Closed(x.k, These(x.picks), D) && NeedsIn(x.k, These(x.picks), b, D) && w !in D;
    x.PicksContain(D + {b});
    BlockStaysIn(x.Policy(), Start(x.Policy()), b, D + {b});
  }

  lemma FirstEarlier(order: seq<nat>, all: seq<nat>, b: nat, w: nat)
    requires order <= all && b in order && w !in order && w in all
    ensures Earlier(all, b, w)
  {
    var i :| 0 <= i < |order| && order[i] == b;
    var j :| 0 <= j < |all| && all[j] == w;
    assert all[i] == b && forall n :: 0 <= n < |order| ==> all[n] == order[n];
  }

  lemma AllInOrder(x: Case, roots: seq<Path>)
    requires x.Valid() && Blocks(x.k.writers) <= WritersOfAll(x.k.writers, roots) && Evaluation(x.Policy(), roots).r.Ok?
    ensures forall b :: b in Blocks(x.k.writers) ==> b in Evaluation(x.Policy(), roots).st.order
  {
    PathsKeep(x.Policy(), Start(x.Policy()), roots);
    EvaluationIsSafe(x.Policy(), roots);
    var order := Evaluation(x.Policy(), roots).st.order;
    assert forall b :: b in Elements(order) ==> b in order;
  }

  /** An evaluation that starts with b has it before w, to which it does not lead. */
  lemma HeadFinishesFirst(x: Case, p: Path, b: nat, w: nat, more: seq<Path>)
    requires x.Valid() && HeadOf(x.k, p, b) && b in Blocks(x.k.writers) && b != w && !Leads(x.k, These(x.picks), b, w)
    requires w in Blocks(x.k.writers) && Blocks(x.k.writers) <= WritersOfAll(x.k.writers, [p] + more)
    requires Evaluation(x.Policy(), [p] + more).r.Ok?
    ensures Earlier(Evaluation(x.Policy(), [p] + more).st.order, b, w)
  {
    var all, y := Evaluation(x.Policy(), [p] + more), BlockRun(x.Policy(), Start(x.Policy()), b);
    HeadRuns(x.Policy(), p, b, more);
    RunsWhatItLeadsTo(x, b, w);
    AllInOrder(x, [p] + more);
    BlockKeeps(x.Policy(), Start(x.Policy()), b);
    InElements(y.st.order, b);
    InElements(y.st.order, w);
    FirstEarlier(y.st.order, all.st.order, b, w);
  }

  lemma InElements(order: seq<nat>, b: nat)
    ensures b in order <==> b in Elements(order)
  {
  }

  lemma MoreRoots(k: Shape, p: Path, more: seq<Path>)
    ensures WritersOfAll(k.writers, more) <= WritersOfAll(k.writers, [p] + more)
  {
    WritersOfBoth(k.writers, [p], more);
  }

  /** Of two writers that clash, the store tells which one the driver ran first. */
  lemma WritersClashInDriver(x: Case, b: nat, p: Path, w: nat, q: Path, roots: seq<Path>, roots': seq<Path>)
    requires x.Valid() && b != w && p in WritesOf(x.k, b) && q in WritesOf(x.k, w) && Related(p, q)
    requires x.out == ClashOutput(x.k, b, p, w, q) && x.watch == Nobody
    requires Earlier(Evaluation(x.Policy(), roots).st.order, b, w)
    requires Earlier(Evaluation(x.Policy(), roots').st.order, w, b)
    ensures Evaluation(x.Policy(), roots).st.store != Evaluation(x.Policy(), roots').st.store
  {
    x.EvaluationKept(roots);
    x.EvaluationKept(roots');
    FoldClash(x.k, b, p, w, q, Evaluation(x.Policy(), roots).st.order, Evaluation(x.Policy(), roots').st.order);
  }

  /** A block that watches fails if the driver runs the other one first. */
  lemma WatcherFails(x: Case, b: nat, p: Path, w: nat, q: Path, roots: seq<Path>)
    requires x.Valid() && b in x.k.rules && Related(p, q) && x.out == map[b := (p, Leaf(0))] && x.watch == Watch(w, q)
    requires b != w && Evaluation(x.Policy(), roots).r.Ok?
    ensures !Earlier(Evaluation(x.Policy(), roots).st.order, b, w)
  {
    x.EvaluationKept(roots);
    UnseenIsNotEarlier(x, b, p, w, q, Evaluation(x.Policy(), roots).st.order);
  }

  lemma UnseenIsNotEarlier(x: Case, b: nat, p: Path, w: nat, q: Path, order: seq<nat>)
    requires b in x.k.rules && Related(p, q) && x.out == map[b := (p, Leaf(0))] && x.watch == Watch(w, q)
    requires NoDuplicates(order) && x.Unseen(order)
    ensures !Earlier(order, b, w)
  {
    forall i, j | 0 <= i < j < |order| && order[i] == b
      ensures order[j] != w
    {
      assert order[..j][i] == b;
      Sighted(x.k, b, p, q, order[..j]);
    }
  }

  /** A block that watches does not fail if the driver starts with it. */
  lemma WatcherFirst(x: Case, b: nat, p: Path, w: nat, q: Path, r: Path, more: seq<Path>)
    requires x.Valid() && b in x.k.rules && Related(p, q) && x.out == map[b := (p, Leaf(0))] && x.watch == Watch(w, q)
    requires HeadOf(x.k, r, w) && w in Blocks(x.k.writers) && b != w && !Leads(x.k, These(x.picks), w, b)
    ensures Evaluation(x.Policy(), [r] + more).r.Ok?
  {
    var all, y := Evaluation(x.Policy(), [r] + more), BlockRun(x.Policy(), Start(x.Policy()), w);
    HeadRuns(x.Policy(), r, w, more);
    RunsWhatItLeadsTo(x, w, b);
    x.EvaluationKept([r] + more);
    BlockKeeps(x.Policy(), Start(x.Policy()), w);
    InElements(all.st.order, b);
    if all.r.Err? {
      Sighted(x.k, b, p, q, all.st.order);
    }
  }

  /** The case that shows that b and w are not ordered. */
  ghost function ClashCase(k: Shape, picks: nat -> seq<Pick>, b: nat, p: Path, w: nat, q: Path): Case {
    Case(k, picks, ClashOutput(k, b, p, w, q), ClashWatch(k, w, q))
  }

  lemma DriverDiffers(k: Shape, rank: nat -> nat, c: Choice, b: nat, w: nat)
    requires Acyclic(k, rank) && Heads(k) && k.rules <= Blocks(k.writers)
    requires c.These? && Possible(k, c) && b != w && Conflict(k, c, b, w) && !Leads(k, c, b, w) && !Leads(k, c, w, b)
    ensures !DriverAgreesAlways(k)
  {
    var picks, p, q := PicksThatClash(k, c, b, w);
    var x := ClashCase(k, picks, b, p, w, q);
    ClashIsProper(k, picks, b, p, w, q);
    FixedDeclares(k, picks, x.out, x.watch);
    var r :| HeadOf(k, r, b);
    var r' :| HeadOf(k, r', w);
    var more := RootsForAll(k);
    MoreRoots(k, r, more);
    MoreRoots(k, r', more);
    x.EvaluationKept([r] + more);
    x.EvaluationKept([r'] + more);
    if Evaluation(x.Policy(), [r] + more).r.Ok? {
      HeadFinishesFirst(x, r, b, w, more);
    }
    if q in WritesOf(k, w) {
      HeadFinishesFirst(x, r', w, b, more);
      WritersClashInDriver(x, b, p, w, q, [r] + more, [r'] + more);
    } else {
      if Evaluation(x.Policy(), [r] + more).r.Ok? {
        WatcherFails(x, b, p, w, q, [r] + more);
      }
      WatcherFirst(x, b, p, w, q, r', more);
    }
    EndsDiffer(k, rank, x.Policy(), [r] + more, [r'] + more);
  }

  /**
   The driver agrees with every topological run, whatever blocks compute, exactly if
   every block is indexed and conflicting blocks are ordered by what they demand
   whatever is picked.
   */
  lemma DriverAgreesIff(k: Shape, rank: nat -> nat)
    requires Acyclic(k, rank) && Heads(k)
    ensures DriverAgreesAlways(k) <==> k.rules <= Blocks(k.writers) && Orderly(k, false)
  {
    if k.rules <= Blocks(k.writers) && Orderly(k, false) {
      OrderlyDriverAgrees(k, rank);
    } else if !(k.rules <= Blocks(k.writers)) {
      var b :| b in k.rules && b !in Blocks(k.writers);
      NotIndexedShows(k, rank, b);
    } else {
      var c: Choice :| c.These? && Possible(k, c) && !Ordered(k, c);
      var b, w :| b != w && Conflict(k, c, b, w) && !Leads(k, c, b, w) && !Leads(k, c, w, b);
      DriverDiffers(k, rank, c, b, w);
    }
  }
}
