/**
 Evaluation on demand against a run of all blocks one after the other. Without cyclic
 demands, and where conflicting blocks are ordered by what they demand, the blocks that
 the driver runs end as in the other run, and the order in which they finish is a run
 that leaves the same store.
 */
module DriverAgrees {
  import opened PathOrder
  import opened Wrappers
  import opened WriterIndex
  import opened PolicyStore
  import opened PolicyBlocks
  import opened PolicyRuns
  import opened PolicyDriver
  import opened DriverSafety

  /** A dependency order, and a run of all blocks to compare with. */
  datatype Reference = Reference(rank: nat -> nat, order: seq<nat>)

  ghost predicate IsReference<V(!new)>(a: Artifact<V>, ref: Reference) {
    && Declares(a) && Orderly(a.shape, false) && Acyclic(a.shape, ref.rank)
    && Safe(a, false, Begin(a), ref.order) && Blocks(a.shape.writers) <= Elements(ref.order)
  }

  /** What every block ends with in the run of all blocks. */
  function ResultsOf<V>(a: Artifact<V>, ref: Reference): map<nat, Outcome<V>> {
    Runs(a, Begin(a), ref.order).results
  }

  /** Without cyclic demands there is one. */
  lemma ReferenceExists<V(!new)>(a: Artifact<V>, rank: nat -> nat) returns (ref: Reference)
    requires Declares(a) && Orderly(a.shape, false) && Acyclic(a.shape, rank)
    ensures IsReference(a, ref) && Elements(ref.order) == a.shape.rules + Blocks(a.shape.writers)
  {
    var S := a.shape.rules + Blocks(a.shape.writers);
    forall x, y | x in S && Demands(a.shape, Any, x, y)
      ensures y in S
    {
      var p :| ReadBy(a.shape, Any, x, p) && y in WritersOf(a.shape.writers, p);
      WritersAreIndexed(a.shape, p);
    }
    assert {} + S == S && Begin(a).results.Keys == {};
    var order := OrderExists(a.shape, Any, rank, {}, S);
    TopologicalIsSafe(a, false, Begin(a), order);
    ref := Reference(rank, order);
  }

  // ---------------------------------------------------------------- the turn of a block in the run of all blocks

  /** The blocks run before b, and what b ends with after them. */
  lemma AtItsTurn<V(!new)>(a: Artifact<V>, order: seq<nat>, b: nat) returns (before: seq<nat>)
    requires Safe(a, false, Begin(a), order) && b in order
    ensures Safe(a, false, Begin(a), before) && Ready(a, false, Runs(a, Begin(a), before), b)
    ensures b in Runs(a, Begin(a), order).results
    ensures Runs(a, Begin(a), order).results[b] == ResultAt(a, Runs(a, Begin(a), before), b)
    ensures Continues(Runs(a, Begin(a), before), Runs(a, Begin(a), order))
  {
    var after;
    before, after := SplitAt(order, b);
    AtTurn(a, false, Begin(a), before, b, after);
    ResultOf(a, false, Begin(a), before, b, after);
    forall w | w in Runs(a, Begin(a), before).results
      ensures w in Runs(a, Begin(a), order).results
      ensures Runs(a, Begin(a), order).results[w] == Runs(a, Begin(a), before).results[w]
    {
      RunsKeep(a, false, After(a, Runs(a, Begin(a), before), b), after, w);
    }
  }

  /** What has run at st ended the same at st'. */
  ghost predicate Continues<V>(st: Stage<V>, st': Stage<V>) {
    forall w :: w in st.results ==> w in st'.results && st'.results[w] == st.results[w]
  }

  // ---------------------------------------------------------------- errors

  ghost predicate AllOk<V>(results: map<nat, Outcome<V>>, bs: set<nat>) {
    forall b :: b in bs && b in results ==> results[b].Ok?
  }

  lemma {:induction false} NoErrorOf<V>(results: map<nat, Outcome<V>>, blocks: seq<nat>)
    ensures FirstErrorOf(results, blocks) == None <==> AllOk(results, Elements(blocks))
  {
    if blocks != [] {
      NoErrorOf(results, blocks[1..]);
      FirstElement(blocks);
    }
  }

  lemma {:induction false} NoError<V>(k: Shape, results: map<nat, Outcome<V>>, paths: seq<Path>)
    ensures FirstError(k, results, paths) == None <==> AllOk(results, WritersOfAll(k.writers, paths))
  {
    if paths != [] {
      NoError(k, results, paths[1..]);
      NoErrorOf(results, WritersOf(k.writers, paths[0]));
      FirstPathWriters(k.writers, paths);
      AllOkBoth(results, Elements(WritersOf(k.writers, paths[0])), WritersOfAll(k.writers, paths[1..]));
    }
  }

  lemma AllOkBoth<V>(results: map<nat, Outcome<V>>, bs: set<nat>, bs': set<nat>)
    ensures AllOk(results, bs + bs') <==> AllOk(results, bs) && AllOk(results, bs')
  {
  }

  lemma {:induction false} SameFirstErrorOf<V>(r: map<nat, Outcome<V>>, r': map<nat, Outcome<V>>, blocks: seq<nat>)
    requires forall w :: w in blocks ==> w in r && w in r' && r[w] == r'[w]
    ensures FirstErrorOf(r, blocks) == FirstErrorOf(r', blocks)
  {
    SameErrorOf(r, r', blocks);
  }

  /** Errors are the same where the writers of the paths ended the same. */
  lemma {:induction false} SameFirstError<V>(k: Shape, r: map<nat, Outcome<V>>, r': map<nat, Outcome<V>>,
      paths: seq<Path>)
    requires forall w :: w in WritersOfAll(k.writers, paths) ==> w in r && w in r' && r[w] == r'[w]
    ensures FirstError(k, r, paths) == FirstError(k, r', paths)
  {
    if paths != [] {
      FirstPathWriters(k.writers, paths);
      assert forall w :: w in WritersOf(k.writers, paths[0]) ==> w in Elements(WritersOf(k.writers, paths[0]));
      SameErrorOf(r, r', WritersOf(k.writers, paths[0]));
      SameFirstError(k, r, r', paths[1..]);
    }
  }

  // ---------------------------------------------------------------- what the driver keeps

  /** The finished blocks, in the order in which they finished, are a run without errors that leaves the store. */
  ghost predicate Follows<V>(a: Artifact<V>, st: State<V>) {
    var run := Runs(a, Begin(a), st.order);
    && Safe(a, false, Begin(a), st.order) && run.store == st.store && run.results.Keys == st.ran
    && AllOk(run.results, st.ran)
  }

  /** Active blocks are not below the bound. */
  ghost predicate InOrder<V>(a: Artifact<V>, ref: Reference, st: State<V>, bound: nat) {
    Follows(a, st) && st.ran !! st.inProgress && forall s :: s in st.inProgress ==> bound <= ref.rank(s)
  }

  ghost predicate AllBelow(rank: nat -> nat, bound: nat, blocks: set<nat>) {
    forall w :: w in blocks ==> rank(w) < bound
  }

  /** What b demands with these picks is below b. */
  lemma NeedsBelow(k: Shape, rank: nat -> nat, b: nat, picks: seq<Pick>)
    requires Acyclic(k, rank) && b in k.rules && (picks == [] || CanPick(k, b, picks))
    ensures AllBelow(rank, rank(b), WritersOfAll(k.writers, Always(k, b)))
    ensures AllBelow(rank, rank(b), WritersOfAll(k.writers, DemandedBy(k, b, picks)))
  {
    forall w | w in WritersOfAll(k.writers, Always(k, b))
      ensures rank(w) < rank(b)
    {
      var i := WritersOfAllFrom(k.writers, Always(k, b), w);
      assert ReadBy(k, Any, b, Always(k, b)[i]);
      assert Demands(k, Any, b, w);
    }
    forall w | w in WritersOfAll(k.writers, DemandedBy(k, b, picks))
      ensures rank(w) < rank(b)
    {
      IdleReads(k, b);
      var demanded := DemandedBy(k, b, picks);
      var i := WritersOfAllFrom(k.writers, demanded, w);
      assert demanded[i] in Reads(k, b, picks);
      ReadsAreMayReads(k, b, picks, demanded[i]);
      assert ReadBy(k, Any, b, demanded[i]);
      assert Demands(k, Any, b, w);
    }
  }

  /** A block is fed if the writers of what it reads have run. */
  lemma IsFed<V>(k: Shape, st: Stage<V>, b: nat, picks: seq<Pick>)
    requires b !in st.results && (b in k.rules ==> WritersOfAll(k.writers, Reads(k, b, picks)) <= st.results.Keys)
    ensures Fed(k, false, st, b, picks)
  {
    var c := These(Only(picks));
    forall w | Demands(k, c, b, w)
      ensures w in st.results
    {
      var p :| ReadBy(k, c, b, p) && w in WritersOf(k.writers, p);
      var i :| 0 <= i < |Reads(k, b, picks)| && Reads(k, b, picks)[i] == p;
      WritersOfAllHas(k.writers, Reads(k, b, picks), i);
    }
  }

  lemma FedHasRun<V>(k: Shape, st: Stage<V>, b: nat, picks: seq<Pick>, paths: seq<Path>)
    requires Fed(k, false, st, b, picks) && forall p :: p in paths ==> p in Reads(k, b, picks)
    ensures WritersOfAll(k.writers, paths) <= st.results.Keys
  {
    forall w | w in WritersOfAll(k.writers, paths)
      ensures w in st.results
    {
      var i := WritersOfAllFrom(k.writers, paths, w);
      assert ReadBy(k, These(Only(picks)), b, paths[i]);
      assert Demands(k, These(Only(picks)), b, w);
    }
  }

  // ---------------------------------------------------------------- the driver follows the run

  /** The block ended as it should, or will have when it has committed. */
  ghost predicate Matches<V>(r: Fallible<Option<Written<V>>>, o: Outcome<V>) {
    match r
    case Err(e) => o == Err(e)
    case Ok(None) => o == Ok(None)
    case Ok(Some(w)) => o == Ok(Some(w.writes))
  }

  lemma FinishedIsOk<V(!new)>(a: Artifact<V>, ref: Reference, st: State<V>, b: nat)
    requires IsReference(a, ref) && Follows(a, st) && b in st.ran && b in Blocks(a.shape.writers)
    ensures b in ResultsOf(a, ref) && ResultsOf(a, ref)[b].Ok?
  {
    BeginSettled(a, false);
    RunsKeep(a, false, Begin(a), st.order, b);
    assert b in Elements(ref.order);
    SameResults(a, false, Begin(a), st.order, ref.order, b);
  }

  lemma FinishFollows<V>(a: Artifact<V>, x: Inner<V>, b: nat)
    requires Follows(a, x.st) && x.r.Ok? && Ready(a, false, Runs(a, Begin(a), x.st.order), b)
    requires Matches(x.r, ResultAt(a, Runs(a, Begin(a), x.st.order), b))
    ensures Follows(a, Exited(x, b))
  {
    OneMoreRun(a, Begin(a), x.st.order, b);
  }

  lemma OneMoreRun<V>(a: Artifact<V>, st: Stage<V>, order: seq<nat>, b: nat)
    requires Safe(a, false, st, order) && Ready(a, false, Runs(a, st, order), b)
    ensures Safe(a, false, st, order + [b]) && Runs(a, st, order + [b]) == After(a, Runs(a, st, order), b)
  {
    var run := Runs(a, st, order);
    RunsBoth(a, false, st, order, [b]);
    assert [b][1..] == [];
    assert Safe(a, false, After(a, run, b), []) && Runs(a, After(a, run, b), []) == After(a, run, b);
  }

  /** Without an error the state is in order and the blocks have finished; an error is the one there should be. */
  ghost predicate Went<V>(a: Artifact<V>, ref: Reference, x: Reply<V>, bound: nat, error: Option<string>,
      bs: set<nat>)
  {
    ErrorOf(x.r) == error && (x.r.Ok? ==> InOrder(a, ref, x.st, bound) && bs <= x.st.ran)
  }

  lemma WentBoth<V>(a: Artifact<V>, ref: Reference, x: Reply<V>, y: Reply<V>, bound: nat, e: Option<string>,
      e': Option<string>, bs: set<nat>, bs': set<nat>)
    requires Went(a, ref, x, bound, e, bs) && (x.r.Ok? ==> Went(a, ref, y, bound, e', bs') && Advanced(x.st, y.st))
    ensures Went(a, ref, if x.r.Err? then x else y, bound, if e.Some? then e else e', bs + bs')
  {
  }

  lemma EnterFollows<V>(a: Artifact<V>, ref: Reference, st: State<V>, b: nat, bound: nat)
    requires InOrder(a, ref, st, bound) && ref.rank(b) < bound && b !in st.ran
    ensures b !in st.inProgress && InOrder(a, ref, Entered(st, b), ref.rank(b))
  {
  }

  /** An active block ends: it is in order again for the blocks that were active before. */
  lemma ExitFollows<V>(a: Artifact<V>, ref: Reference, st: State<V>, x: Inner<V>, b: nat, bound: nat)
    requires InOrder(a, ref, st, bound) && b !in st.inProgress && Advanced(Entered(st, b), x.st)
    requires InnerOk(a, ref, x, b)
    ensures Went(a, ref, Reply(Exited(x, b), ReplyOf(x.r)), bound, ErrorOf(ResultsOf(a, ref)[b]), {b})
  {
    if x.r.Ok? {
      FinishFollows(a, x, b);
    }
  }

  lemma DoneFollows<V(!new)>(a: Artifact<V>, ref: Reference, st: State<V>, b: nat, bound: nat)
    requires IsReference(a, ref) && InOrder(a, ref, st, bound) && b in st.ran && b in Blocks(a.shape.writers)
    ensures b in ResultsOf(a, ref)
    ensures Went(a, ref, Reply(st, Ok(())), bound, ErrorOf(ResultsOf(a, ref)[b]), {b})
  {
    FinishedIsOk(a, ref, st, b);
  }

  lemma BlockRunIs<V>(a: Artifact<V>, st: State<V>, b: nat)
    requires b in Blocks(a.shape.writers)
    ensures b in st.ran || b in st.inProgress ==> BlockRun(a, st, b) == Reply(st, Ok(()))
    ensures b !in st.ran && b !in st.inProgress ==>
      var x := InnerRun(a, Entered(st, b), b);
      BlockRun(a, st, b) == Reply(Exited(x, b), ReplyOf(x.r)) && Left(a.shape, Entered(st, b)) < Left(a.shape, st)
  {
    if b !in st.ran && b !in st.inProgress {
      OneLess(a.shape, st, b);
    }
  }

  lemma {:induction false} BlockFollows<V(!new)>(a: Artifact<V>, ref: Reference, st: State<V>, b: nat, bound: nat)
    requires IsReference(a, ref) && InOrder(a, ref, st, bound) && b in Blocks(a.shape.writers) && ref.rank(b) < bound
    ensures b in ResultsOf(a, ref)
    ensures Went(a, ref, BlockRun(a, st, b), bound, ErrorOf(ResultsOf(a, ref)[b]), {b})
    decreases Left(a.shape, st), 0
  {
    BlockRunIs(a, st, b);
    if b in st.ran {
      DoneFollows(a, ref, st, b, bound);
    } else {
      EnterFollows(a, ref, st, b, bound);
      InnerFollows(a, ref, Entered(st, b), b);
      ExitFollows(a, ref, st, InnerRun(a, Entered(st, b), b), b, bound);
    }
  }

  lemma {:induction false} BlocksFollow<V(!new)>(a: Artifact<V>, ref: Reference, st: State<V>, owners: seq<nat>,
      bound: nat)
    requires IsReference(a, ref) && InOrder(a, ref, st, bound) && AllBelow(ref.rank, bound, Elements(owners))
    requires forall w :: w in owners ==> w in Blocks(a.shape.writers)
    ensures Went(a, ref, BlocksRun(a, st, owners), bound, FirstErrorOf(ResultsOf(a, ref), owners), Elements(owners))
    decreases Left(a.shape, st), 1, |owners|
  {
    if owners != [] {
      var x := BlockRun(a, st, owners[0]);
      FirstElement(owners);
      BlockFollows(a, ref, st, owners[0], bound);
      FewerLeft(a.shape, st, x.st);
      var results, rest := ResultsOf(a, ref), owners[1..];
      if x.r.Ok? {
        BlocksFollow(a, ref, x.st, rest, bound);
        WentBoth(a, ref, x, BlocksRun(a, x.st, rest), bound, ErrorOf(results[owners[0]]), FirstErrorOf(results, rest),
                 {owners[0]}, Elements(rest));
      }
    }
  }

  lemma {:induction false} PathsFollow<V(!new)>(a: Artifact<V>, ref: Reference, st: State<V>, paths: seq<Path>,
      bound: nat)
    requires IsReference(a, ref) && InOrder(a, ref, st, bound)
    requires AllBelow(ref.rank, bound, WritersOfAll(a.shape.writers, paths))
    ensures Went(a, ref, PathsRun(a, st, paths), bound, FirstError(a.shape, ResultsOf(a, ref), paths),
                 WritersOfAll(a.shape.writers, paths))
    decreases Left(a.shape, st), 3, |paths|
  {
    if paths != [] {
      var x := PathRun(a, st, paths[0]);
      WritersAreIndexed(a.shape, paths[0]);
      FirstPathWriters(a.shape.writers, paths);
      BlocksFollow(a, ref, st, WritersOf(a.shape.writers, paths[0]), bound);
      FewerLeft(a.shape, st, x.st);
      if x.r.Ok? {
        var k, results, rest := a.shape, ResultsOf(a, ref), paths[1..];
        PathsFollow(a, ref, x.st, rest, bound);
        WentBoth(a, ref, x, PathsRun(a, x.st, rest), bound, FirstErrorOf(results, WritersOf(k.writers, paths[0])),
                 FirstError(k, results, rest), Elements(WritersOf(k.writers, paths[0])), WritersOfAll(k.writers, rest));
      }
    }
  }

  /** The turn of b in the run of all blocks, after the blocks of before. */
  ghost predicate TurnOf<V>(a: Artifact<V>, ref: Reference, before: seq<nat>, b: nat) {
    var there := Runs(a, Begin(a), before);
    && Safe(a, false, Begin(a), before) && Ready(a, false, there, b)
    && Continues(there, Runs(a, Begin(a), ref.order))
    && b in ResultsOf(a, ref) && ResultsOf(a, ref)[b] == ResultAt(a, there, b)
  }

  /** Block b is active, and what it always reads has been demanded. */
  ghost predicate Started<V>(a: Artifact<V>, ref: Reference, st: State<V>, b: nat) {
    && InOrder(a, ref, st, ref.rank(b)) && b in st.inProgress && b in a.shape.rules
    && WritersOfAll(a.shape.writers, Always(a.shape, b)) <= st.ran
  }

  /** What the inner part of a block comes to. */
  ghost predicate InnerOk<V>(a: Artifact<V>, ref: Reference, x: Inner<V>, b: nat) {
    && b in ResultsOf(a, ref) && Matches(x.r, ResultsOf(a, ref)[b])
    && (x.r.Ok? ==>
      && InOrder(a, ref, x.st, ref.rank(b)) && Ready(a, false, Runs(a, Begin(a), x.st.order), b)
      && ResultAt(a, Runs(a, Begin(a), x.st.order), b) == ResultsOf(a, ref)[b])
  }

  lemma NoRuleFollows<V(!new)>(a: Artifact<V>, ref: Reference, st: State<V>, b: nat, before: seq<nat>)
    requires InOrder(a, ref, st, ref.rank(b)) && b in st.inProgress && b !in a.shape.rules && TurnOf(a, ref, before, b)
    ensures InnerOk(a, ref, Inner(st, Ok(None)), b)
  {
    IsFed(a.shape, Runs(a, Begin(a), st.order), b, IDLE);
  }

  /** An error among what b always reads is the error of b. */
  lemma AlwaysErrors<V(!new)>(a: Artifact<V>, ref: Reference, before: seq<nat>, b: nat)
    requires TurnOf(a, ref, before, b) && b in a.shape.rules
    ensures var e := FirstError(a.shape, ResultsOf(a, ref), Always(a.shape, b));
      e.Some? ==> ResultsOf(a, ref)[b] == Err(e.value)
  {
    var there := Runs(a, Begin(a), before);
    FedHasRun(a.shape, there, b, PicksAt(a, there, b), Always(a.shape, b));
    SameFirstError(a.shape, there.results, ResultsOf(a, ref), Always(a.shape, b));
  }

  lemma {:induction false} InnerFollows<V(!new)>(a: Artifact<V>, ref: Reference, st: State<V>, b: nat)
    requires IsReference(a, ref) && InOrder(a, ref, st, ref.rank(b))
    requires b in st.inProgress && b in Blocks(a.shape.writers)
    ensures InnerOk(a, ref, InnerRun(a, st, b), b)
    decreases Left(a.shape, st), 5
  {
    var before := AtItsTurn(a, ref.order, b);
    assert TurnOf(a, ref, before, b);
    InnerRunIs(a, st, b);
    if b !in a.shape.rules {
      NoRuleFollows(a, ref, st, b, before);
    } else {
      var always := Always(a.shape, b);
      NeedsBelow(a.shape, ref.rank, b, []);
      PathsFollow(a, ref, st, always, ref.rank(b));
      AlwaysErrors(a, ref, before, b);
      var x := PathsRun(a, st, always);
      if x.r.Ok? {
        SelectedFollows(a, ref, x.st, b, before);
      }
    }
  }

  /** With its unconditional reads done, b selects as in the run of all blocks. */
  lemma SelectsTheSame<V(!new)>(a: Artifact<V>, ref: Reference, st: State<V>, b: nat, before: seq<nat>)
    requires IsReference(a, ref) && Started(a, ref, st, b) && TurnOf(a, ref, before, b)
    ensures SeesSame(a.shape, Runs(a, Begin(a), st.order), Runs(a, Begin(a), before), Always(a.shape, b))
  {
    var k, here, there := a.shape, Runs(a, Begin(a), st.order), Runs(a, Begin(a), before);
    IdleReads(k, b);
    assert Reads(k, b, IDLE) == Always(k, b);
    FedHasRun(k, there, b, PicksAt(a, there, b), Always(k, b));
    IsFed(k, here, b, IDLE);
    IsFed(k, there, b, IDLE);
    BeginSettled(a, false);
    ViewAgrees(a, false, Begin(a), st.order, before, b, IDLE);
  }

  /** So the selection is the same, and a block without instances ends here. */
  lemma SelectionFollows<V(!new)>(a: Artifact<V>, ref: Reference, st: State<V>, b: nat, before: seq<nat>)
    requires IsReference(a, ref) && Started(a, ref, st, b) && TurnOf(a, ref, before, b)
    ensures var chosen := Selected(a, b, ViewOf(st.store, Always(a.shape, b)));
      && chosen == Chosen(a, Runs(a, Begin(a), before), b)
      && (chosen.Err? ==> InnerOk(a, ref, Inner(st, Err(chosen.error)), b))
      && (chosen == Ok(None) ==> InnerOk(a, ref, Inner(st, Ok(None)), b))
  {
    var k, here, there := a.shape, Runs(a, Begin(a), st.order), Runs(a, Begin(a), before);
    SelectsTheSame(a, ref, st, b, before);
    SameChosen(a, here, there, b);
    NoError(k, here.results, Always(k, b));
    IdleReads(k, b);
    assert Reads(k, b, IDLE) == Always(k, b);
    IsFed(k, here, b, IDLE);
  }

  lemma {:induction false} SelectedFollows<V(!new)>(a: Artifact<V>, ref: Reference, st: State<V>, b: nat,
      before: seq<nat>)
    requires IsReference(a, ref) && Started(a, ref, st, b) && TurnOf(a, ref, before, b)
    ensures InnerOk(a, ref, SelectedRun(a, st, b), b)
    decreases Left(a.shape, st), 4
  {
    SelectionFollows(a, ref, st, b, before);
    var chosen := Selected(a, b, ViewOf(st.store, Always(a.shape, b)));
    if chosen.Ok? && chosen.value.Some? {
      var picks := chosen.value.value;
      PicksErrors(a, ref, before, b, picks);
      PathsFollow(a, ref, st, DemandedBy(a.shape, b, picks), ref.rank(b));
      var x := PathsRun(a, st, DemandedBy(a.shape, b, picks));
      if x.r.Ok? {
        CommitFollows(a, ref, x.st, b, before, picks);
      }
    }
  }

  /** What b picks is written below it, and an error there is the error of b. */
  lemma PicksErrors<V(!new)>(a: Artifact<V>, ref: Reference, before: seq<nat>, b: nat, picks: seq<Pick>)
    requires Acyclic(a.shape, ref.rank) && TurnOf(a, ref, before, b) && b in a.shape.rules
    requires Chosen(a, Runs(a, Begin(a), before), b) == Ok(Some(picks))
    ensures AllBelow(ref.rank, ref.rank(b), WritersOfAll(a.shape.writers, DemandedBy(a.shape, b, picks)))
    ensures var e := FirstError(a.shape, ResultsOf(a, ref), DemandedBy(a.shape, b, picks));
      && e == FirstError(a.shape, Runs(a, Begin(a), before).results, DemandedBy(a.shape, b, picks))
      && (e.Some? ==> ResultsOf(a, ref)[b] == Err(e.value))
  {
    var there := Runs(a, Begin(a), before);
    ChosenReads(a, there, b);
    if picks != [] {
      SelectedCanPick(a, b, ViewOf(there.store, Always(a.shape, b)));
    }
    NeedsBelow(a.shape, ref.rank, b, picks);
    FedHasRun(a.shape, there, b, PicksAt(a, there, b), DemandedBy(a.shape, b, picks));
    SameFirstError(a.shape, there.results, ResultsOf(a, ref), DemandedBy(a.shape, b, picks));
  }

  /** With everything demanded, b is at its turn in the order of the driver as well. */
  lemma TurnAgain<V(!new)>(a: Artifact<V>, ref: Reference, st: State<V>, b: nat, before: seq<nat>, picks: seq<Pick>)
    requires IsReference(a, ref) && Started(a, ref, st, b) && TurnOf(a, ref, before, b)
    requires Chosen(a, Runs(a, Begin(a), before), b) == Ok(Some(picks))
    requires WritersOfAll(a.shape.writers, DemandedBy(a.shape, b, picks)) <= st.ran
    ensures var here, there := Runs(a, Begin(a), st.order), Runs(a, Begin(a), before);
      && Ready(a, false, here, b) && ResultAt(a, here, b) == ResultAt(a, there, b)
      && SeesSame(a.shape, here, there, Always(a.shape, b) + DemandedBy(a.shape, b, picks))
  {
    var k, here, there := a.shape, Runs(a, Begin(a), st.order), Runs(a, Begin(a), before);
    var mine := PicksAt(a, there, b);
    ChosenReads(a, there, b);
    WritersOfBoth(k.writers, Always(k, b), DemandedBy(k, b, picks));
    IsFed(k, here, b, mine);
    PicksAtCan(a, there, b);
    BeginSettled(a, false);
    ViewAgrees(a, false, Begin(a), st.order, before, b, mine);
    SameTurn(a, there, here, b);
  }

  /** With everything demanded, b commits as in the run of all blocks. */
  lemma CommitFollows<V(!new)>(a: Artifact<V>, ref: Reference, st: State<V>, b: nat, before: seq<nat>,
      picks: seq<Pick>)
    requires IsReference(a, ref) && Started(a, ref, st, b) && TurnOf(a, ref, before, b)
    requires Chosen(a, Runs(a, Begin(a), before), b) == Ok(Some(picks))
    requires FirstError(a.shape, Runs(a, Begin(a), before).results, DemandedBy(a.shape, b, picks)) == None
    requires WritersOfAll(a.shape.writers, DemandedBy(a.shape, b, picks)) <= st.ran
    ensures InnerOk(a, ref, Inner(st, ToCommit(a, st, b, picks)), b)
  {
    var here, there := Runs(a, Begin(a), st.order), Runs(a, Begin(a), before);
    TurnAgain(a, ref, st, b, before, picks);
    SameView(here.store, there.store, Always(a.shape, b) + DemandedBy(a.shape, b, picks));
  }

  // ---------------------------------------------------------------- a whole evaluation

  lemma {:induction false} BoundExists(rank: nat -> nat, bs: set<nat>) returns (bound: nat)
    ensures AllBelow(rank, bound, bs)
  {
    if bs == {} {
      bound := 0;
    } else {
      var b :| b in bs;
      bound := BoundExists(rank, bs - {b});
      bound := if rank(b) < bound then bound else rank(b) + 1;
      assert AllBelow(rank, bound, bs) by {
        forall w | w in bs
          ensures rank(w) < bound
        {
          assert w == b || w in bs - {b};
        }
      }
    }
  }

  /**
   An evaluation ends with the first error among the writers of its roots; without one
   the order in which blocks finished is a run without errors that leaves its store.
   */
  lemma EvaluationFollows<V(!new)>(a: Artifact<V>, ref: Reference, roots: seq<Path>)
    requires IsReference(a, ref)
    ensures var x := Evaluation(a, roots);
      && ErrorOf(x.r) == FirstError(a.shape, ResultsOf(a, ref), roots)
      && (x.r.Ok? ==> Follows(a, x.st) && WritersOfAll(a.shape.writers, roots) <= x.st.ran)
  {
    var bound := BoundExists(ref.rank, WritersOfAll(a.shape.writers, roots));
    PathsFollow(a, ref, Start(a), roots, bound);
  }
}
