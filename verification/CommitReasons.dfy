/**
 Why a driver run ends as it does, told without the driver: every commit is what its
 block selects and computes from what there was to see, first at its unconditional
 reads and then at all that it reads; a block that finished without a commit had
 nothing to iterate over; an error is that of a selection or a commit.
 */
module CommitReasons {
  import opened PathOrder
  import opened Wrappers
  import opened WriterIndex
  import opened PolicyStore
  import opened PolicyBlocks
  import opened PolicyDriver
  import opened DriverSafety

  // ---------------------------------------------------------------- earlier and later

  /** The run had come so far before. */
  ghost predicate Precedes<V>(early: Log<V>, log: Log<V>) {
    early == log || (log.Then? && Precedes(early, log.before))
  }

  lemma {:induction false} PrecedesTwice<V>(a: Log<V>, b: Log<V>, c: Log<V>)
    requires Precedes(a, b) && Precedes(b, c)
    ensures Precedes(a, c)
  {
    if b != c {
      PrecedesTwice(a, b, c.before);
    }
  }

  lemma {:induction false} CommittedLater<V>(early: Log<V>, log: Log<V>, b: nat)
    requires Precedes(early, log) && Committed(early, b)
    ensures Committed(log, b)
  {
    if early != log {
      CommittedLater(early, log.before, b);
    }
  }

  // ---------------------------------------------------------------- reasons

  /** What there was at the paths when the run had come so far. */
  ghost function Seen<V>(a: Artifact<V>, log: Log<V>, paths: seq<Path>): View<V> {
    map p | p in paths :: Get(StoreOf(a.input, log), p)
  }

  ghost function AlwaysRead<V>(a: Artifact<V>, b: nat): seq<Path> {
    if b in a.shape.plans then a.shape.plans[b].unconditional else []
  }

  /** b made these picks on what it saw at its unconditional reads. */
  ghost predicate Picked<V>(a: Artifact<V>, early: Log<V>, b: nat, picks: seq<Pick>) {
    b in a.shape.rules && PicksFrom(a, b, picks, Seen(a, early, AlwaysRead(a, b)))
  }

  /** b gives these values on what it sees at all that it reads with its picks. */
  ghost predicate Computed<V>(a: Artifact<V>, log: Log<V>, b: nat, picks: seq<Pick>, vs: seq<V>) {
    ValuesFrom(a, b, picks, vs, Seen(a, log, AlwaysRead(a, b) + DemandedBy(a.shape, b, picks)))
  }

  /** What b commits after the log: its picks are from earlier on, and it writes what its commits then give. */
  ghost predicate Reasoned<V(!new)>(a: Artifact<V>, log: Log<V>, b: nat, w: Written<V>) {
    && w.paths == AlwaysRead(a, b) + DemandedBy(a.shape, b, w.picks)
    && (exists early :: Precedes(early, log) && Picked(a, early, b, w.picks))
    && exists vs :: Computed(a, log, b, w.picks, vs) && w.writes == a.spread(b, vs)
  }

  /** Every commit of the run has its reason. */
  ghost predicate AllReasoned<V(!new)>(a: Artifact<V>, log: Log<V>) {
    log.Then? ==>
      && AllReasoned(a, log.before)
      && Reasoned(a, log.before, log.last.block, Written(log.last.picks, log.last.paths, log.last.writes))
  }

  /** At some point of the run b had no array to iterate over. */
  ghost predicate HadNothing<V(!new)>(a: Artifact<V>, log: Log<V>, b: nat) {
    a.shape.iterated(b) &&
    exists early :: Precedes(early, log) && a.instances(b, Seen(a, early, AlwaysRead(a, b))).None?
  }

  /** Every finished block that has a rule has committed, or had nothing to iterate over. */
  ghost predicate AllFinished<V(!new)>(a: Artifact<V>, st: State<V>) {
    forall b :: b in st.ran && b in a.shape.rules ==> Committed(st.log, b) || HadNothing(a, st.log, b)
  }

  /** The error is that of a selection or of a commit of some block with a rule. */
  ghost predicate Caused<V(!new)>(a: Artifact<V>, log: Log<V>, e: string) {
    exists b, early :: b in a.shape.rules && Precedes(early, log) &&
      (SelectFails(a, b, e, Seen(a, early, AlwaysRead(a, b))) || CommitFailed(a, early, b, e))
  }

  ghost predicate CommitFailed<V(!new)>(a: Artifact<V>, log: Log<V>, b: nat, e: string) {
    exists early, picks, vs :: Precedes(early, log) && Picked(a, early, b, picks) &&
      CommitFails(a, b, picks, vs, e, Seen(a, log, AlwaysRead(a, b) + DemandedBy(a.shape, b, picks)))
  }

  /** What holds all along. */
  ghost predicate Accounted<V(!new)>(a: Artifact<V>, st: State<V>) {
    st.store == StoreOf(a.input, st.log) && AllReasoned(a, st.log) && AllFinished(a, st)
  }

  /** What holds at the end of a part of a run. */
  ghost predicate Accounts<V(!new)>(a: Artifact<V>, st: State<V>, st': State<V>, r: Option<string>) {
    Accounted(a, st') && Precedes(st.log, st'.log) && (r.Some? ==> Caused(a, st'.log, r.value))
  }

  lemma AccountsTwice<V(!new)>(a: Artifact<V>, st: State<V>, st': State<V>, st'': State<V>, r: Option<string>)
    requires Precedes(st.log, st'.log) && Accounts(a, st', st'', r)
    ensures Accounts(a, st, st'', r)
  {
    PrecedesTwice(st.log, st'.log, st''.log);
  }

  // ---------------------------------------------------------------- every run has its reasons

  lemma {:induction false} BlockAccounts<V(!new)>(a: Artifact<V>, st: State<V>, b: nat)
    requires Accounted(a, st) && b in Blocks(a.shape.writers)
    ensures var x := BlockRun(a, st, b);
      Accounts(a, st, x.st, ErrorOf(x.r))
    decreases Left(a.shape, st), 0
  {
    if b !in st.ran && b !in st.inProgress {
      OneLess(a.shape, st, b);
      InnerAccounts(a, Entered(st, b), b);
      ExitAccounts(a, Entered(st, b), InnerRun(a, Entered(st, b), b), b);
    }
  }

  /** What holds of the end of a block before it commits. */
  ghost predicate EndsReasoned<V(!new)>(a: Artifact<V>, st: State<V>, x: Inner<V>, b: nat) {
    && Accounts(a, st, x.st, ErrorOf(x.r))
    && (x.r.Ok? && x.r.value.Some? ==> Reasoned(a, x.st.log, b, x.r.value.value))
    && (x.r.Ok? && x.r.value.None? && b in a.shape.rules ==> HadNothing(a, x.st.log, b))
  }

  lemma ExitAccounts<V(!new)>(a: Artifact<V>, st: State<V>, x: Inner<V>, b: nat)
    requires EndsReasoned(a, st, x, b)
    ensures Accounts(a, st, Exited(x, b), ErrorOf(x.r))
  {
    var st' := Exited(x, b);
    if x.r.Ok? && x.r.value.Some? {
      assert Precedes(x.st.log, st'.log);
      PrecedesTwice(st.log, x.st.log, st'.log);
      forall c | c in x.st.ran && c in a.shape.rules && !Committed(st'.log, c)
        ensures HadNothing(a, st'.log, c)
      {
        NothingLater(a, x.st.log, st'.log, c);
      }
    }
  }

  lemma NothingLater<V(!new)>(a: Artifact<V>, early: Log<V>, log: Log<V>, b: nat)
    requires Precedes(early, log) && HadNothing(a, early, b)
    ensures HadNothing(a, log, b)
  {
    var first :| Precedes(first, early) && a.instances(b, Seen(a, first, AlwaysRead(a, b))).None?;
    PrecedesTwice(first, early, log);
  }

  lemma {:induction false} BlocksAccount<V(!new)>(a: Artifact<V>, st: State<V>, owners: seq<nat>)
    requires Accounted(a, st) && forall w :: w in owners ==> w in Blocks(a.shape.writers)
    ensures var x := BlocksRun(a, st, owners);
      Accounts(a, st, x.st, ErrorOf(x.r))
    decreases Left(a.shape, st), 1, |owners|
  {
    if owners != [] {
      var x := BlockRun(a, st, owners[0]);
      BlockAccounts(a, st, owners[0]);
      FewerLeft(a.shape, st, x.st);
      if x.r.Ok? {
        BlocksAccount(a, x.st, owners[1..]);
        var y := BlocksRun(a, x.st, owners[1..]);
        AccountsTwice(a, st, x.st, y.st, ErrorOf(y.r));
      }
    }
  }

  lemma {:induction false} PathsAccount<V(!new)>(a: Artifact<V>, st: State<V>, paths: seq<Path>)
    requires Accounted(a, st)
    ensures var x := PathsRun(a, st, paths);
      Accounts(a, st, x.st, ErrorOf(x.r))
    decreases Left(a.shape, st), 3, |paths|
  {
    if paths != [] {
      var x := PathRun(a, st, paths[0]);
      WritersAreIndexed(a.shape, paths[0]);
      BlocksAccount(a, st, WritersOf(a.shape.writers, paths[0]));
      FewerLeft(a.shape, st, x.st);
      if x.r.Ok? {
        PathsAccount(a, x.st, paths[1..]);
        var y := PathsRun(a, x.st, paths[1..]);
        AccountsTwice(a, st, x.st, y.st, ErrorOf(y.r));
      }
    }
  }

  lemma {:induction false} InnerAccounts<V(!new)>(a: Artifact<V>, st: State<V>, b: nat)
    requires Accounted(a, st)
    ensures EndsReasoned(a, st, InnerRun(a, st, b), b)
    decreases Left(a.shape, st), 5
  {
    InnerRunIs(a, st, b);
    if b in a.shape.rules {
      var x := PathsRun(a, st, Always(a.shape, b));
      PathsAccount(a, st, Always(a.shape, b));
      if x.r.Ok? {
        SelectedAccounts(a, x.st, b);
        var y := SelectedRun(a, x.st, b);
        AccountsTwice(a, st, x.st, y.st, ErrorOf(y.r));
      }
    }
  }

  lemma {:induction false} SelectedAccounts<V(!new)>(a: Artifact<V>, st: State<V>, b: nat)
    requires Accounted(a, st) && b in a.shape.rules
    ensures EndsReasoned(a, st, SelectedRun(a, st, b), b)
    decreases Left(a.shape, st), 4
  {
    var view := ViewOf(st.store, Always(a.shape, b));
    assert view == Seen(a, st.log, AlwaysRead(a, b));
    assert Precedes(st.log, st.log);
    SelectedExactly(a, b, view);
    match Selected(a, b, view)
    case Err(e) => assert Caused(a, st.log, e);
    case Ok(None) => assert HadNothing(a, st.log, b);
    case Ok(Some(picks)) =>
      var demanded := DemandedBy(a.shape, b, picks);
      var x := PathsRun(a, st, demanded);
      PathsAccount(a, st, demanded);
      if x.r.Ok? {
        ToCommitReasoned(a, st.log, x.st, b, picks);
      }
  }

  lemma ToCommitReasoned<V(!new)>(a: Artifact<V>, early: Log<V>, st: State<V>, b: nat, picks: seq<Pick>)
    requires Accounted(a, st) && Precedes(early, st.log) && Picked(a, early, b, picks)
    ensures var r := ToCommit(a, st, b, picks);
      && (r.Ok? ==> r.value.Some? && Reasoned(a, st.log, b, r.value.value))
      && (r.Err? ==> Caused(a, st.log, r.error))
  {
    var paths := Always(a.shape, b) + DemandedBy(a.shape, b, picks);
    assert ViewOf(st.store, paths) == Seen(a, st.log, paths);
    var vs := CommittedExactly(a, b, picks, ViewOf(st.store, paths));
    var r := ToCommit(a, st, b, picks);
    if r.Ok? {
      assert Computed(a, st.log, b, picks, vs);
    } else {
      assert CommitFailed(a, st.log, b, r.error);
      assert Precedes(st.log, st.log);
    }
  }

  /** Every commit of an evaluation, every block that finished without one, and an error has its reason. */
  lemma EvaluationHasReasons<V(!new)>(a: Artifact<V>, roots: seq<Path>)
    ensures var x := Evaluation(a, roots);
      AllReasoned(a, x.st.log) && AllFinished(a, x.st) && (x.r.Err? ==> Caused(a, x.st.log, x.r.error))
  {
    PathsAccount(a, Start(a), roots);
  }

  // ---------------------------------------------------------------- what used cells read

  /**
   For every cell that a committed block used, the writers of its paths, as the plan has
   them, have finished; likewise for the arm that it matched and its unconditional reads.
   */
  ghost predicate UsedReadsFinished<V>(a: Artifact<V>, st: State<V>) {
    forall i, p, w | 0 <= i < |Commits(st.log)| && w in WritersOf(a.shape.writers, p) ::
      var c := Commits(st.log)[i];
      c.block in a.shape.plans && UsedPath(a.shape.plans[c.block], c.picks, p) ==> w in st.ran
  }

  /** A block reads p always, or with an arm that it matched, or with a cell that it used. */
  ghost predicate UsedPath(plan: ReadPlan, picks: seq<Pick>, p: Path) {
    || p in plan.unconditional
    || (plan.conditional.TableReads? && exists pick, u, c ::
          && pick in picks && pick.TablePick? && u in pick.used
          && c in plan.conditional.cells && c.row == u.0 && c.col == u.1 && p in c.paths)
    || (plan.conditional.MatchReads? && exists pick, i ::
          && pick in picks && pick.MatchPick? && FirstNamed(plan.conditional.arms, pick.arm, i)
          && p in plan.conditional.arms[i].paths)
  }

  /** The arm at i is the first of that name. */
  predicate FirstNamed(arms: seq<ArmReads>, arm: Option<string>, i: int) {
    0 <= i < |arms| && arm == Some(arms[i].arm) && forall j :: 0 <= j < i ==> arms[j].arm != arms[i].arm
  }

  lemma UsedIsRead<V(!new)>(a: Artifact<V>, log: Log<V>, b: nat, w: Written<V>, p: Path)
    requires Reasoned(a, log, b, w) && b in a.shape.plans && UsedPath(a.shape.plans[b], w.picks, p)
    ensures p in w.paths
  {
    var plan := a.shape.plans[b];
    DemandedExactly(a.shape, b, w.picks, plan);
    if p !in plan.unconditional {
      if plan.conditional.TableReads? {
        var pick, u, c :| pick in w.picks && pick.TablePick? && u in pick.used
          && c in plan.conditional.cells && c.row == u.0 && c.col == u.1 && p in c.paths;
        TableReadsExactly(pick.used, plan.conditional.cells, plan.unconditional, p);
        assert p in CollectReads(pick, plan);
      } else {
        var pick, i :| pick in w.picks && pick.MatchPick? && FirstNamed(plan.conditional.arms, pick.arm, i)
          && p in plan.conditional.arms[i].paths;
        MatchReadsExactly(plan.conditional.arms, plan.unconditional, pick.arm.value);
        assert p in CollectReads(pick, plan);
      }
    }
  }

  lemma {:induction false} CommitReasoned<V(!new)>(a: Artifact<V>, log: Log<V>, i: nat) returns (early: Log<V>)
    requires AllReasoned(a, log) && i < |Commits(log)|
    ensures var c := Commits(log)[i];
      Reasoned(a, early, c.block, Written(c.picks, c.paths, c.writes))
  {
    if i < |Commits(log)| - 1 {
      early := CommitReasoned(a, log.before, i);
    } else {
      early := log.before;
    }
  }

  /** After a success the writers of all paths that committed blocks used have finished. */
  lemma UsedFinished<V(!new)>(a: Artifact<V>, st: State<V>)
    requires AllReasoned(a, st.log) && Complete(a.shape.writers, st.log, st.ran)
    ensures UsedReadsFinished(a, st)
  {
    forall i, p, w | 0 <= i < |Commits(st.log)| && w in WritersOf(a.shape.writers, p)
      ensures var c := Commits(st.log)[i];
        c.block in a.shape.plans && UsedPath(a.shape.plans[c.block], c.picks, p) ==> w in st.ran
    {
      var c := Commits(st.log)[i];
      if c.block in a.shape.plans && UsedPath(a.shape.plans[c.block], c.picks, p) {
        var early := CommitReasoned(a, st.log, i);
        UsedIsRead(a, early, c.block, Written(c.picks, c.paths, c.writes), p);
        assert w in Elements(WritersOf(a.shape.writers, p));
      }
    }
  }
}
