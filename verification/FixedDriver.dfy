/** The driver on policies whose blocks pick and write the same whatever they see. */
module FixedDriver {
  import opened PathOrder
  import opened Wrappers
  import opened WriterIndex
  import opened PolicyStore
  import opened PolicyBlocks
  import opened PolicyRuns
  import opened PolicyDriver
  import opened DriverSafety
  import opened FixedPolicies

  /** The policy: its shape, what blocks pick and write, and who watches what it reads. */
  datatype Case = Case(k: Shape, picks: nat -> seq<Pick>, out: Output, watch: Watch) {
    ghost function Policy(): Artifact<int> {
      Fixed(k, picks, out, watch)
    }

    ghost predicate Valid() {
      && Possible(k, These(picks))
      && (watch.Watch? ==> watch.block in k.rules && watch.path in Reads(k, watch.block, picks(watch.block)))
      && (watch.Failing? ==> watch.block !in Blocks(k.writers))
    }

    /** When the watching block finished, it saw nothing. */
    ghost predicate Unseen(order: seq<nat>) {
      watch.Watch? ==>
        forall i :: 0 <= i < |order| && order[i] == watch.block ==> Get(Fold(k, out, order[..i]), watch.path) == Absent
    }

    /** The store is what the finished blocks write, one after the other. */
    ghost predicate Holds(st: State<int>) {
      st.store == Fold(k, out, st.order) && st.ran == Elements(st.order) && st.ran !! st.inProgress && Unseen(st.order)
    }

    /** Only the watching block fails, when it sees something. */
    ghost predicate Seen(st: State<int>) {
      watch.Watch? && watch.block !in st.ran && Get(st.store, watch.path) != Absent
    }

    ghost predicate Kept<T>(st: State<int>, r: Fallible<T>) {
      Holds(st) && (r.Err? ==> Seen(st))
    }

    /** What a block commits does not depend on what it sees. */
    ghost predicate Inside(x: Inner<int>, b: nat) {
      && Kept(x.st, x.r)
      && (x.r.Ok? ==>
        && (if b in k.rules then x.r.value.Some? && x.r.value.value.writes == WritesIn(out, b) else x.r.value.None?)
        && (watch.Watch? && b == watch.block ==> Get(x.st.store, watch.path) == Absent))
    }

    lemma EnterKeeps(st: State<int>, b: nat)
      requires Holds(st) && b !in st.ran
      ensures Holds(Entered(st, b))
    {
    }

    lemma ExitKeeps(st: State<int>, x: Inner<int>, b: nat)
      requires Inside(x, b) && b in x.st.inProgress
      ensures Kept(Exited(x, b), x.r)
    {
      if x.r.Ok? {
        FoldOneMore(k, out, x.st.order, b);
        StaysUnseen(x.st.order, b);
        assert Elements(x.st.order + [b]) == Elements(x.st.order) + {b};
      }
    }

    lemma StaysUnseen(order: seq<nat>, b: nat)
      requires Unseen(order)
      requires watch.Watch? && b == watch.block ==> Get(Fold(k, out, order), watch.path) == Absent
      ensures Unseen(order + [b])
    {
      if watch.Watch? {
        forall i | 0 <= i < |order + [b]| && (order + [b])[i] == watch.block
          ensures Get(Fold(k, out, (order + [b])[..i]), watch.path) == Absent
        {
          assert (order + [b])[..i] == order[..i];
          assert order[..|order|] == order;
        }
      }
    }

    lemma {:induction false} BlockKept(st: State<int>, b: nat)
      requires Valid() && Holds(st) && b in Blocks(k.writers)
      ensures Kept(BlockRun(Policy(), st, b).st, BlockRun(Policy(), st, b).r)
      decreases Left(k, st), 0
    {
      if b !in st.ran && b !in st.inProgress {
        OneLess(k, st, b);
        EnterKeeps(st, b);
        InnerKept(Entered(st, b), b);
        ExitKeeps(st, InnerRun(Policy(), Entered(st, b), b), b);
      }
    }

    lemma {:induction false} BlocksKept(st: State<int>, owners: seq<nat>)
      requires Valid() && Holds(st) && forall w :: w in owners ==> w in Blocks(k.writers)
      ensures Kept(BlocksRun(Policy(), st, owners).st, BlocksRun(Policy(), st, owners).r)
      decreases Left(k, st), 1, |owners|
    {
      if owners != [] {
        var x := BlockRun(Policy(), st, owners[0]);
        BlockKept(st, owners[0]);
        FewerLeft(k, st, x.st);
        if x.r.Ok? {
          BlocksKept(x.st, owners[1..]);
        }
      }
    }

    lemma {:induction false} PathsKept(st: State<int>, paths: seq<Path>)
      requires Valid() && Holds(st)
      ensures Kept(PathsRun(Policy(), st, paths).st, PathsRun(Policy(), st, paths).r)
      decreases Left(k, st), 3, |paths|
    {
      if paths != [] {
        var x := PathRun(Policy(), st, paths[0]);
        WritersAreIndexed(k, paths[0]);
        BlocksKept(st, WritersOf(k.writers, paths[0]));
        FewerLeft(k, st, x.st);
        if x.r.Ok? {
          PathsKept(x.st, paths[1..]);
        }
      }
    }

    lemma {:induction false} InnerKept(st: State<int>, b: nat)
      requires Valid() && Holds(st) && b in st.inProgress && b in Blocks(k.writers)
      ensures Inside(InnerRun(Policy(), st, b), b)
      decreases Left(k, st), 5
    {
      if b in k.rules {
        var x := PathsRun(Policy(), st, Always(k, b));
        PathsKept(st, Always(k, b));
        FewerLeft(k, st, x.st);
        if x.r.Ok? {
          SelectedKept(x.st, b);
        }
      }
    }

    lemma {:induction false} SelectedKept(st: State<int>, b: nat)
      requires Valid() && Holds(st) && b in st.inProgress && b in k.rules && b in Blocks(k.writers)
      ensures Inside(SelectedRun(Policy(), st, b), b)
      decreases Left(k, st), 4
    {
      FixedSelected(k, picks, out, watch, b, ViewOf(st.store, Always(k, b)));
      var x := PathsRun(Policy(), st, DemandedBy(k, b, picks(b)));
      PathsKept(st, DemandedBy(k, b, picks(b)));
      if x.r.Ok? {
        FixedCommitting(k, picks, out, watch, b, ViewOf(x.st.store, Always(k, b) + DemandedBy(k, b, picks(b))));
      }
    }

    /** An evaluation leaves what the blocks write, one after the other, unless the watching block sees something. */
    lemma EvaluationKept(roots: seq<Path>)
      requires Valid()
      ensures var x := Evaluation(Policy(), roots);
        Kept(x.st, x.r) && NoDuplicates(x.st.order)
    {
      PathsKept(Start(Policy()), roots);
      PathsKeep(Policy(), Start(Policy()), roots);
    }

    /** Blocks demand what they pick. */
    lemma PicksContain(D: set<nat>)
      requires Valid() && Closed(k, These(picks), D)
      ensures Contains(Policy(), D)
    {
      forall b | b in D && b in k.rules
        ensures WritersOfAll(k.writers, Always(k, b)) <= D && WritersOfAll(k.writers, DemandedBy(k, b, picks(b))) <= D
      {
        forall w | w in WritersOfAll(k.writers, Reads(k, b, picks(b)))
          ensures w in D
        {
          var i := WritersOfAllFrom(k.writers, Reads(k, b, picks(b)), w);
          assert ReadBy(k, These(picks), b, Reads(k, b, picks(b))[i]);
          assert Demands(k, These(picks), b, w);
        }
        WritersOfBoth(k.writers, Always(k, b), DemandedBy(k, b, picks(b)));
      }
      forall b, view: View<int> | b in D
        ensures Selected(Policy(), b, view) == Ok(Some(picks(b)))
      {
        FixedSelected(k, picks, out, watch, b, view);
      }
    }
  }
}
