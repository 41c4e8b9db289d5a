/**
 The demand-driven policy driver: a property is demanded by running the blocks
 that write it; a block first demands what it always reads, then selects, demands
 what the selection reads, and commits to the store.

 BlockRun and the functions it calls say what the driver does, step by step; the
 methods of Driver do it. The rest is about these functions.
 */
module PolicyDriver {
  import opened PathOrder
  import opened Wrappers
  import opened WriterIndex
  import opened PolicyStore
  import opened PolicyBlocks

  // ---------------------------------------------------------------- the log of a run

  /**
   A commit with what it picked and wrote, the reads it relied on, and what had finished
   or was under way at that moment.
   */
  datatype Commit<+V> = Commit(
    block: nat,
    picks: seq<Pick>,
    writes: Writes<V>,
    paths: seq<Path>,
    ran: set<nat>,
    stack: set<nat>
  )

  /** Every writer of what the commit read had finished, or is waiting below it on the stack. */
  ghost predicate SafeCommit<V>(writers: Writers, c: Commit<V>) {
    forall p :: p in c.paths ==> Elements(WritersOf(writers, p)) <= c.ran + c.stack
  }

  /** The commits of a run, the latest last. */
  datatype Log<+V> = Empty | Then(before: Log<V>, last: Commit<V>)

  predicate Committed<V>(log: Log<V>, b: nat) {
    log.Then? && (b == log.last.block || Committed(log.before, b))
  }

  /** Some commit saw b finished or under way. */
  predicate ReliedOn<V>(log: Log<V>, b: nat) {
    log.Then? && (b in log.last.ran || b in log.last.stack || ReliedOn(log.before, b))
  }

  /** Every commit was safe, and of a block that had not committed before. */
  ghost predicate LogOk<V>(writers: Writers, log: Log<V>) {
    log.Empty? ||
    (SafeCommit(writers, log.last) && !Committed(log.before, log.last.block) && LogOk(writers, log.before))
  }

  function Commits<V>(log: Log<V>): seq<Commit<V>> {
    if log.Empty? then [] else Commits(log.before) + [log.last]
  }

  /** What the commits of a run made of the input, one after the other. */
  function StoreOf<V>(input: Store<V>, log: Log<V>): Store<V> {
    if log.Empty? then input else Apply(StoreOf(input, log.before), log.last.writes)
  }

  /** Every commit of a log writes to the store that the ones before it left. */
  lemma StoreByCommits<V>(input: Store<V>, log: Log<V>, c: Commit<V>)
    ensures StoreOf(input, Empty) == input && Commits<V>(Empty) == []
    ensures StoreOf(input, Then(log, c)) == Apply(StoreOf(input, log), c.writes)
    ensures Commits(Then(log, c)) == Commits(log) + [c]
  {
  }

  lemma {:induction false} CommittedIn<V>(log: Log<V>, i: nat)
    requires i < |Commits(log)|
    ensures Committed(log, Commits(log)[i].block)
  {
    if i < |Commits(log)| - 1 {
      CommittedIn(log.before, i);
    }
  }

  /** Over a whole run no block commits twice, and no commit reads what has not at least been started below it. */
  lemma {:induction false} CommitsOnceAndSafely<V>(writers: Writers, log: Log<V>)
    requires LogOk(writers, log)
    ensures forall i, j :: 0 <= i < j < |Commits(log)| ==> Commits(log)[i].block != Commits(log)[j].block
    ensures forall i :: 0 <= i < |Commits(log)| ==> SafeCommit(writers, Commits(log)[i])
  {
    if log.Then? {
      CommitsOnceAndSafely(writers, log.before);
      forall i | 0 <= i < |Commits(log)| - 1
        ensures Commits(log)[i].block != log.last.block
      {
        CommittedIn(log.before, i);
      }
    }
  }

  lemma CommitIsSafe<V>(writers: Writers, c: Commit<V>)
    requires WritersOfAll(writers, c.paths) <= c.ran + c.stack
    ensures SafeCommit(writers, c)
  {
    forall p | p in c.paths
      ensures Elements(WritersOf(writers, p)) <= c.ran + c.stack
    {
      var i :| 0 <= i < |c.paths| && c.paths[i] == p;
      WritersOfAllHas(writers, c.paths, i);
    }
  }

  // ---------------------------------------------------------------- what the driver does

  /** Finished and active blocks, the store, the order in which blocks finished, and the commits so far. */
  datatype State<+V> = State(ran: set<nat>, inProgress: set<nat>, store: Store<V>, order: seq<nat>, log: Log<V>)

  function Start<V>(a: Artifact<V>): State<V> {
    State({}, {}, a.input, [], Empty)
  }

  datatype Reply<+V> = Reply(st: State<V>, r: Fallible<()>)

  /** What a block picks and commits, and the reads it relied on. */
  datatype Written<+V> = Written(picks: seq<Pick>, paths: seq<Path>, writes: Writes<V>)

  /** The end of a block, before it commits. */
  datatype Inner<+V> = Inner(st: State<V>, r: Fallible<Option<Written<V>>>)

  /** What never goes back. */
  ghost predicate Advanced<V>(st: State<V>, st': State<V>) {
    st.ran <= st'.ran && st'.inProgress == st.inProgress && st.order <= st'.order
  }

  /** How many blocks are neither finished nor active. */
  ghost function Left<V>(k: Shape, st: State<V>): nat {
    |Blocks(k.writers) - (st.ran + st.inProgress)|
  }

  lemma FewerLeft<V>(k: Shape, st: State<V>, st': State<V>)
    requires Advanced(st, st')
    ensures Left(k, st') <= Left(k, st)
  {
    SubsetSize(Blocks(k.writers) - (st'.ran + st'.inProgress), Blocks(k.writers) - (st.ran + st.inProgress));
  }

  lemma OneLess<V>(k: Shape, st: State<V>, b: nat)
    requires b in Blocks(k.writers) && b !in st.ran && b !in st.inProgress
    ensures Left(k, Entered(st, b)) < Left(k, st)
  {
    assert Blocks(k.writers) - (st.ran + st.inProgress) ==
      (Blocks(k.writers) - (st.ran + (st.inProgress + {b}))) + {b};
  }

  lemma WritersAreIndexed(k: Shape, p: Path)
    ensures forall w :: w in WritersOf(k.writers, p) ==> w in Blocks(k.writers)
  {
    assert HasAllWriters(k.writers, Blocks(k.writers));
    WritersAreBlocks(k.writers, Blocks(k.writers), p);
    assert forall w :: w in WritersOf(k.writers, p) ==> w in Elements(WritersOf(k.writers, p));
  }

  function Entered<V>(st: State<V>, b: nat): State<V> {
    st.(inProgress := st.inProgress + {b})
  }

  /** The block is active no longer; if it succeeded it commits and has finished. */
  function Exited<V>(x: Inner<V>, b: nat): State<V> {
    var st := x.st;
    match x.r
    case Err(_) => st.(inProgress := st.inProgress - {b})
    case Ok(None) => State(st.ran + {b}, st.inProgress - {b}, st.store, st.order + [b], st.log)
    case Ok(Some(w)) =>
      State(st.ran + {b}, st.inProgress - {b}, Apply(st.store, w.writes), st.order + [b],
            Then(st.log, Commit(b, w.picks, w.writes, w.paths, st.ran, st.inProgress)))
  }

  lemma ExitAdvances<V>(st: State<V>, x: Inner<V>, b: nat)
    requires Advanced(Entered(st, b), x.st) && b !in st.inProgress
    ensures Advanced(st, Exited(x, b))
  {
    assert Exited(x, b).inProgress == st.inProgress;
  }

  function ReplyOf<T>(r: Fallible<T>): Fallible<()> {
    match r
    case Ok(_) => Ok(())
    case Err(e) => Err(e)
  }

  /** Runs a block unless it has run or is active. */
  ghost function BlockRun<V>(a: Artifact<V>, st: State<V>, b: nat): (x: Reply<V>)
    requires b in Blocks(a.shape.writers)
    ensures Advanced(st, x.st)
    decreases Left(a.shape, st), 0
  {
    if b in st.ran || b in st.inProgress then Reply(st, Ok(()))
    else
      OneLess(a.shape, st, b);
      var x := InnerRun(a, Entered(st, b), b);
      ExitAdvances(st, x, b);
      Reply(Exited(x, b), ReplyOf(x.r))
  }

  /** Blocks one after the other, up to the first error. */
  ghost function BlocksRun<V>(a: Artifact<V>, st: State<V>, owners: seq<nat>): (x: Reply<V>)
    requires forall w :: w in owners ==> w in Blocks(a.shape.writers)
    ensures Advanced(st, x.st)
    decreases Left(a.shape, st), 1, |owners|
  {
    if owners == [] then Reply(st, Ok(()))
    else
      var x := BlockRun(a, st, owners[0]);
      FewerLeft(a.shape, st, x.st);
      if x.r.Err? then x else BlocksRun(a, x.st, owners[1..])
  }

  /** The writers of a property. */
  ghost function PathRun<V>(a: Artifact<V>, st: State<V>, prop: Path): (x: Reply<V>)
    ensures Advanced(st, x.st)
    decreases Left(a.shape, st), 2
  {
    WritersAreIndexed(a.shape, prop);
    BlocksRun(a, st, WritersOf(a.shape.writers, prop))
  }

  /** Paths one after the other, up to the first error. */
  ghost function PathsRun<V>(a: Artifact<V>, st: State<V>, paths: seq<Path>): (x: Reply<V>)
    ensures Advanced(st, x.st)
    decreases Left(a.shape, st), 3, |paths|
  {
    if paths == [] then Reply(st, Ok(()))
    else
      var x := PathRun(a, st, paths[0]);
      FewerLeft(a.shape, st, x.st);
      if x.r.Err? then x else PathsRun(a, x.st, paths[1..])
  }

  /** Demand, select, demand, and what to commit. */
  ghost function InnerRun<V>(a: Artifact<V>, st: State<V>, b: nat): (x: Inner<V>)
    ensures Advanced(st, x.st)
    decreases Left(a.shape, st), 5
  {
    if b !in a.shape.rules then Inner(st, Ok(None))
    else
      var x := PathsRun(a, st, Always(a.shape, b));
      FewerLeft(a.shape, st, x.st);
      if x.r.Err? then Inner(x.st, Err(x.r.error)) else SelectedRun(a, x.st, b)
  }

  /** A block after its unconditional reads. */
  ghost function SelectedRun<V>(a: Artifact<V>, st: State<V>, b: nat): (x: Inner<V>)
    ensures Advanced(st, x.st)
    decreases Left(a.shape, st), 4
  {
    match Selected(a, b, ViewOf(st.store, Always(a.shape, b)))
    case Err(e) => Inner(st, Err(e))
    case Ok(None) => Inner(st, Ok(None))
    case Ok(Some(picks)) =>
      var x := PathsRun(a, st, DemandedBy(a.shape, b, picks));
      if x.r.Err? then Inner(x.st, Err(x.r.error)) else Inner(x.st, ToCommit(a, x.st, b, picks))
  }

  lemma InnerRunIs<V>(a: Artifact<V>, st: State<V>, b: nat)
    ensures b !in a.shape.rules ==> InnerRun(a, st, b) == Inner(st, Ok(None))
    ensures b in a.shape.rules ==>
      var x := PathsRun(a, st, Always(a.shape, b));
      && Left(a.shape, x.st) <= Left(a.shape, st)
      && InnerRun(a, st, b) == if x.r.Err? then Inner(x.st, Err(x.r.error)) else SelectedRun(a, x.st, b)
  {
    if b in a.shape.rules {
      FewerLeft(a.shape, st, PathsRun(a, st, Always(a.shape, b)).st);
    }
  }

  /** What the block commits, once everything it reads has been demanded. */
  function ToCommit<V>(a: Artifact<V>, st: State<V>, b: nat, picks: seq<Pick>): Fallible<Option<Written<V>>> {
    var paths := Always(a.shape, b) + DemandedBy(a.shape, b, picks);
    match Committing(a, b, picks, ViewOf(st.store, paths))
    case Err(e) => Err(e)
    case Ok(None) => Ok(None)
    case Ok(Some(ws)) => Ok(Some(Written(picks, paths, ws)))
  }

  /** An evaluation demands its roots in order. */
  ghost function Evaluation<V>(a: Artifact<V>, roots: seq<Path>): Reply<V> {
    PathsRun(a, Start(a), roots)
  }

  // ---------------------------------------------------------------- the driver

  class Driver<V(!new)> {
    const a: Artifact<V>
    var ran: set<nat>
    var inProgress: set<nat>
    var store: Store<V>
    ghost var order: seq<nat>
    ghost var log: Log<V>

    constructor (a: Artifact<V>)
      ensures this.a == a && St() == Start(a)
    {
      this.a := a;
      ran, inProgress := {}, {};
      store := a.input;
      order, log := [], Empty;
    }

    ghost function St(): State<V>
      reads this
    {
      State(ran, inProgress, store, order, log)
    }

    /** Demands a property: runs the writers of its longest prefix. */
    method Demand(prop: Path) returns (r: Fallible<()>)
      modifies this
      ensures Reply(St(), r) == PathRun(a, old(St()), prop)
      decreases Left(a.shape, St()), 2
    {
      var owners := WritersOfLongestPrefixLoop(a.shape.writers, prop);
      WritersAreIndexed(a.shape, prop);
      r := RunBlocks(owners);
    }

    /** Runs blocks one after the other, up to the first error. */
    method RunBlocks(owners: seq<nat>) returns (r: Fallible<()>)
      requires forall w :: w in owners ==> w in Blocks(a.shape.writers)
      modifies this
      ensures Reply(St(), r) == BlocksRun(a, old(St()), owners)
      decreases Left(a.shape, St()), 1
    {
      var i := 0;
      while i < |owners|
        invariant 0 <= i <= |owners| && Advanced(old(St()), St())
        invariant BlocksRun(a, old(St()), owners) == BlocksRun(a, St(), owners[i..])
      {
        FewerLeft(a.shape, old(St()), St());
        r := RunBlock(owners[i]);
        if r.Err? {
          return;
        }
        i := i + 1;
      }
      r := Ok(());
    }

    /** Demands paths one after the other, up to the first error. */
    method DemandPaths(paths: seq<Path>) returns (r: Fallible<()>)
      modifies this
      ensures Reply(St(), r) == PathsRun(a, old(St()), paths)
      decreases Left(a.shape, St()), 3
    {
      var i := 0;
      while i < |paths|
        invariant 0 <= i <= |paths| && Advanced(old(St()), St())
        invariant PathsRun(a, old(St()), paths) == PathsRun(a, St(), paths[i..])
      {
        FewerLeft(a.shape, old(St()), St());
        r := Demand(paths[i]);
        if r.Err? {
          return;
        }
        i := i + 1;
      }
      r := Ok(());
    }

    /** Runs a block unless it has run or is active. */
    method RunBlock(owner: nat) returns (r: Fallible<()>)
      requires owner in Blocks(a.shape.writers)
      modifies this
      ensures Reply(St(), r) == BlockRun(a, old(St()), owner)
      decreases Left(a.shape, St()), 0
    {
      if owner in ran || owner in inProgress {
        return Ok(());
      }
      OneLess(a.shape, St(), owner);
      inProgress := inProgress + {owner};
      r := RunBlockInner(owner);
      inProgress := inProgress - {owner};
      if r.Ok? {
        ran := ran + {owner};
        order := order + [owner];
      }
    }

    /** Demand, select, demand, commit. */
    method RunBlockInner(owner: nat) returns (r: Fallible<()>)
      modifies this
      ensures var x := InnerRun(a, old(St()), owner);
        r == ReplyOf(x.r) && St() == WithCommit(x, owner)
      decreases Left(a.shape, St()), 5
    {
      if owner !in a.shape.rules {
        return Ok(());
      }
      var always := Always(a.shape, owner);
      r := DemandPaths(always);
      if r.Err? {
        return;
      }
      FewerLeft(a.shape, old(St()), St());
      r := SelectAndCommit(owner);
    }

    /** A block after its unconditional reads. */
    method SelectAndCommit(owner: nat) returns (r: Fallible<()>)
      modifies this
      ensures var x := SelectedRun(a, old(St()), owner);
        r == ReplyOf(x.r) && St() == WithCommit(x, owner)
      decreases Left(a.shape, St()), 4
    {
      var chosen := Selected(a, owner, ViewOf(store, Always(a.shape, owner)));
      match chosen
      case Err(e) => return Err(e);
      case Ok(None) => return Ok(());
      case Ok(Some(picks)) =>
        r := DemandPaths(DemandedBy(a.shape, owner, picks));
        if r.Ok? {
          r := CommitBlock(owner, picks);
        }
    }

    /** The commit, once everything the block reads has been demanded. */
    method CommitBlock(owner: nat, picks: seq<Pick>) returns (r: Fallible<()>)
      modifies this
      ensures var x := Inner(old(St()), ToCommit(a, old(St()), owner, picks));
        r == ReplyOf(x.r) && St() == WithCommit(x, owner)
    {
      var paths := Always(a.shape, owner) + DemandedBy(a.shape, owner, picks);
      var o := Committing(a, owner, picks, ViewOf(store, paths));
      match o
      case Err(e) => return Err(e);
      case Ok(None) => return Ok(());
      case Ok(Some(ws)) =>
        log := Then(log, Commit(owner, picks, ws, paths, ran, inProgress));
        store := Apply(store, ws);
        r := Ok(());
    }
  }

  /** The state after the commit, with the block still active. */
  function WithCommit<V>(x: Inner<V>, b: nat): State<V> {
    match x.r
    case Ok(Some(w)) =>
      x.st.(store := Apply(x.st.store, w.writes),
            log := Then(x.st.log, Commit(b, w.picks, w.writes, w.paths, x.st.ran, x.st.inProgress)))
    case _ => x.st
  }
}
