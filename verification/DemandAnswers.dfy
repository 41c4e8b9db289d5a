/**
 Policies on which evaluation on demand and topological runs leave different stores:
 a block writes below what another one writes; it writes below what a block writes
 that it depends on only when it picks so; it writes below a path that is read but not
 indexed; it writes a path of the data model.
 */
module DemandAnswers {
  import opened PathOrder
  import opened Wrappers
  import opened WriterIndex
  import opened PolicyStore
  import opened PolicyBlocks
  import opened PolicyRuns
  import opened PolicyDriver
  import opened DriverSafety
  import opened DriverAgrees
  import opened FixedPolicies
  import opened FixedDriver
  import opened OrderNeeded
  import opened LazyEager

  // ---------------------------------------------------------------- blocks 0 and 1 and their index

  /** The paths that belong to the data model. */
  function InModel(models: set<Path>): Path -> bool {
    (p: Path) => exists m :: m in models && Related(m, p)
  }

  function TwoBlocks(writers: Writers, ws: seq<Write>, plans: map<nat, ReadPlan>): Shape {
    Shape(writers, (b: nat) => set i | 0 <= i < |ws| && ws[i].block == b :: ws[i].path, {0, 1}, plans,
          (b: nat) => false, (b: nat) => b in plans && plans[b].conditional != NoConditional)
  }

  lemma OwnerIs(writers: Writers, owners: map<Path, nat>, ws: seq<Write>, dm: Path -> bool, i: nat, p: Path)
    requires IsIndexOf(writers, owners, ws, dm) && i < |ws| && Claims(ws, dm, i, p)
    requires forall j :: 0 <= j < i ==> !Claims(ws, dm, j, p)
    ensures p in owners && owners[p] == ws[i].block
    ensures WritersOf(writers, p) != [] && WritersOf(writers, p)[0] == ws[i].block
  {
    FirstClaimIsFirst(ws, dm, |ws|, p);
    assert OwnerFirst(writers, owners, p);
  }

  lemma IndexedBlocks(writers: Writers, owners: map<Path, nat>, ws: seq<Write>, dm: Path -> bool, b: nat)
    requires IsIndexOf(writers, owners, ws, dm) && b in Blocks(writers)
    ensures exists i :: 0 <= i < |ws| && ws[i].block == b
  {
    var k :| k in writers && b in writers[k];
    assert b in WritersFor(writers, k);
    var q :| q in owners && owners[q] == b && Extends(k, q);
    FirstClaimIsFirst(ws, dm, |ws|, q);
  }

  lemma HeadIsBlock(writers: Writers, p: Path, b: nat)
    requires WritersOf(writers, p) != [] && WritersOf(writers, p)[0] == b
    ensures b in Blocks(writers)
  {
    assert HasAllWriters(writers, Blocks(writers));
    WritersAreBlocks(writers, Blocks(writers), p);
    assert b in Elements(WritersOf(writers, p));
  }

  lemma IdleIsPossible(k: Shape)
    ensures Possible(k, These(Only(IDLE)))
  {
    forall b
      ensures CanPick(k, b, IDLE)
    {
      IdleReads(k, b);
    }
  }

  /** Blocks without plans demand nothing. */
  lemma IdleDemandsNothing(k: Shape, c: Choice)
    requires k.plans == map[] && Possible(k, c)
    ensures forall b, w :: !Demands(k, c, b, w)
  {
    forall b, p
      ensures !ReadBy(k, c, b, p)
    {
      if ReadBy(k, c, b, p) && c.These? {
        ReadsAreMayReads(k, b, c.picks(b), p);
      }
    }
  }

  /** A block that demands nothing leads nowhere. */
  lemma LeadsNowhere(k: Shape, c: Choice, b: nat, w: nat)
    requires forall x :: !Demands(k, c, b, x)
    ensures !Leads(k, c, b, w)
  {
    var D: set<nat> := {};
    assert Closed(k, c, D) && NeedsIn(k, c, b, D) && w !in D;
  }

  /** Two blocks of which the second one may run after the first. */
  lemma TwoInOrder(a: Artifact<int>, b: nat, w: nat)
    requires AllBlocks(a.shape) == {b, w} && b != w && NeedsIn(a.shape, Any, b, {}) && NeedsIn(a.shape, Any, w, {b})
    ensures RunsAllBlocks(a, true, [b, w])
  {
    var order := [b, w];
    assert order[1..] == [w] && [w][1..] == [];
    assert Topological(a.shape, Any, {b}, [w]);
    assert Begin(a).results.Keys == {} && {} + {b} == {b};
    TopologicalIsSafe(a, true, Begin(a), order);
    assert Elements(order) == {b, w};
  }

  /** Demanding first a path whose first writer is b, which demands nothing, runs b and later w. */
  lemma StartsWith(x: Case, p: Path, b: nat, w: nat, more: seq<Path>)
    requires x.Valid() && x.watch.Nobody? && HeadOf(x.k, p, b) && Blocks(x.k.writers) == {b, w} && b != w
    requires w in WritersOfAll(x.k.writers, [p] + more) && forall y :: !Demands(x.k, These(x.picks), b, y)
    ensures Evaluation(x.Policy(), [p] + more).r.Ok? && Earlier(Evaluation(x.Policy(), [p] + more).st.order, b, w)
  {
    WritersOfAllHas(x.k.writers, [p] + more, 0);
    assert b in Elements(WritersOf(x.k.writers, p));
    LeadsNowhere(x.k, These(x.picks), b, w);
    x.EvaluationKept([p] + more);
    HeadFinishesFirst(x, p, b, w, more);
  }

  // ---------------------------------------------------------------- a block writes below what another one writes

  /** Block 0 writes an object at p, and block 1 writes below it. */
  function Overlap(writers: Writers, p: Path, q: Path): Artifact<int> {
    Fixed(TwoBlocks(writers, [Write(0, p), Write(1, q)], map[]), Only(IDLE),
          map[0 := (p, Object(map[])), 1 := (q, Leaf(0))],
          Nobody)
  }

  ghost function OverlapCase(writers: Writers, p: Path, q: Path): Case {
    var a := Overlap(writers, p, q);
    Case(a.shape, Only(IDLE), map[0 := (p, Object(map[])), 1 := (q, Leaf(0))], Nobody)
  }

  lemma OverlapIndex(writers: Writers, owners: map<Path, nat>, p: Path, q: Path)
    requires IsIndexOf(writers, owners, [Write(0, p), Write(1, q)], InModel({})) && Extends(p, q) && p != q
    ensures WritersOf(writers, p) != [] && WritersOf(writers, p)[0] == 0 && 1 in WritersOf(writers, p)
    ensures WritersOf(writers, q) != [] && WritersOf(writers, q)[0] == 1
    ensures Blocks(writers) == {0, 1}
  {
    var ws, dm := [Write(0, p), Write(1, q)], InModel({});
    assert Claims(ws, dm, 0, p) && Claims(ws, dm, 1, q) && !Claims(ws, dm, 0, q);
    OwnerIs(writers, owners, ws, dm, 0, p);
    OwnerIs(writers, owners, ws, dm, 1, q);
    assert 1 in WritersFor(writers, p);
    HeadIsBlock(writers, p, 0);
    HeadIsBlock(writers, q, 1);
    forall b | b in Blocks(writers)
      ensures b in {0, 1}
    {
      IndexedBlocks(writers, owners, ws, dm, b);
    }
  }

  /** Demanding p runs block 0 and then block 1; demanding q first runs block 1 before block 0. */
  lemma OverlapOrders(x: Case, writers: Writers, owners: map<Path, nat>, p: Path, q: Path)
    requires IsIndexOf(writers, owners, [Write(0, p), Write(1, q)], InModel({})) && Extends(p, q) && p != q
    requires x == OverlapCase(writers, p, q)
    ensures Evaluation(x.Policy(), [p]).r.Ok? && Earlier(Evaluation(x.Policy(), [p]).st.order, 0, 1)
    ensures Evaluation(x.Policy(), [q, p]).r.Ok? && Earlier(Evaluation(x.Policy(), [q, p]).st.order, 1, 0)
  {
    OverlapIndex(writers, owners, p, q);
    IdleIsPossible(x.k);
    IdleDemandsNothing(x.k, These(x.picks));
    assert [p] + [] == [p] && [q] + [p] == [q, p];
    WritersOfAllHas(writers, [p], 0);
    WritersOfAllHas(writers, [q, p], 1);
    StartsWith(x, p, 0, 1, []);
    StartsWith(x, q, 1, 0, [p]);
  }

  /**
   Demanding p keeps what block 1 writes, and demanding q first loses it. Either order
   is a topological run.
   */
  lemma OverlapDiffers(writers: Writers, owners: map<Path, nat>, p: Path, q: Path)
    requires IsIndexOf(writers, owners, [Write(0, p), Write(1, q)], InModel({})) && Extends(p, q) && p != q
    ensures var a := Overlap(writers, p, q);
      && RunsAllBlocks(a, true, [0, 1]) && RunsAllBlocks(a, true, [1, 0])
      && Evaluation(a, [p]).r.Ok? && Get(Evaluation(a, [p]).st.store, q) == Found(Leaf(0))
      && Evaluation(a, [q, p]).r.Ok? && Get(Evaluation(a, [q, p]).st.store, q) == Absent
  {
    var x := OverlapCase(writers, p, q);
    OverlapIndex(writers, owners, p, q);
    IdleIsPossible(x.k);
    IdleDemandsNothing(x.k, Any);
    TwoInOrder(x.Policy(), 0, 1);
    TwoInOrder(x.Policy(), 1, 0);
    OverlapOrders(x, writers, owners, p, q);
    x.EvaluationKept([p]);
    x.EvaluationKept([q, p]);
    OverlapStores(x.k, p, q, Evaluation(x.Policy(), [p]).st.order, Evaluation(x.Policy(), [q, p]).st.order);
  }

  lemma OverlapStores(k: Shape, p: Path, q: Path, order: seq<nat>, order': seq<nat>)
    requires Extends(p, q) && p != q && 0 in k.rules && 1 in k.rules
    requires NoDuplicates(order) && NoDuplicates(order') && Earlier(order, 0, 1) && Earlier(order', 1, 0)
    ensures var out := map[0 := (p, Object(map[])), 1 := (q, Leaf(0))];
      Get(Fold(k, out, order), q) == Found(Leaf(0)) && Get(Fold(k, out, order'), q) == Absent
  {
    EitherWay(map[], 0, (p, Object(map[])), 1, (q, Leaf(0)));
    FoldBoth(k, 0, p, Object(map[]), 1, q, Leaf(0), order);
    FoldBoth(k, 1, q, Leaf(0), 0, p, Object(map[]), order');
    WrittenBelow<int>(map[], p, q, Leaf(0));
  }

  method StoreAfter(a: Artifact<int>, roots: seq<Path>) returns (store: Store<int>)
    ensures store == Evaluation(a, roots).st.store
  {
    var r;
    ghost var st;
    r, store, st := EvaluateRoots(a, roots, None);
  }

  method OverlapAnswers(p: Path, q: Path) returns (a: Artifact<int>, kept: Store<int>, lost: Store<int>)
    requires Extends(p, q) && p != q
    ensures RunsAllBlocks(a, true, [0, 1]) && RunsAllBlocks(a, true, [1, 0])
    ensures Get(kept, q) == Found(Leaf(0)) && Get(lost, q) == Absent
  {
    var writers: Writers;
    ghost var owners;
    writers, owners := BuildIndex([Write(0, p), Write(1, q)], InModel({}));
    a := Overlap(writers, p, q);
    OverlapDiffers(writers, owners, p, q);
    kept := StoreAfter(a, [p]);
    lost := StoreAfter(a, [q, p]);
  }

  // ---------------------------------------------------------------- a dependency that is not picked

  /** Block 1 reads t only if its first arm matches. */
  function TwoArms(t: Path): map<nat, ReadPlan> {
    map[1 := ReadPlan([], MatchReads([ArmReads("arm", [t]), ArmReads("other", [])]))]
  }

  function OtherArm(): nat -> seq<Pick> {
    (b: nat) => if b == 1 then [MatchPick(Some("other"))] else IDLE
  }

  /** Block 0 writes an object at p and may write t; block 1 writes q, below p, in its other arm. */
  function Choosing(writers: Writers, p: Path, q: Path, t: Path): Artifact<int> {
    Fixed(TwoBlocks(writers, [Write(0, p), Write(0, t), Write(1, q)], TwoArms(t)), OtherArm(),
          map[0 := (p, Object(map[])), 1 := (q, Leaf(0))], Nobody)
  }

  ghost function ChoosingCase(writers: Writers, p: Path, q: Path, t: Path): Case {
    Case(Choosing(writers, p, q, t).shape, OtherArm(), map[0 := (p, Object(map[])), 1 := (q, Leaf(0))], Nobody)
  }

  lemma ChoosingIndex(writers: Writers, owners: map<Path, nat>, p: Path, q: Path, t: Path)
    requires IsIndexOf(writers, owners, [Write(0, p), Write(0, t), Write(1, q)], InModel({}))
    requires Extends(p, q) && p != q && !Related(q, t)
    ensures WritersOf(writers, p) != [] && WritersOf(writers, p)[0] == 0
    ensures WritersOf(writers, q) != [] && WritersOf(writers, q)[0] == 1
    ensures Blocks(writers) == {0, 1}
  {
    var ws, dm := [Write(0, p), Write(0, t), Write(1, q)], InModel({});
    assert Claims(ws, dm, 0, p) && Claims(ws, dm, 2, q) && !Claims(ws, dm, 0, q) && !Claims(ws, dm, 1, q);
    OwnerIs(writers, owners, ws, dm, 0, p);
    OwnerIs(writers, owners, ws, dm, 2, q);
    HeadIsBlock(writers, p, 0);
    HeadIsBlock(writers, q, 1);
    forall b | b in Blocks(writers)
      ensures b in {0, 1}
    {
      IndexedBlocks(writers, owners, ws, dm, b);
    }
  }

  /** Only block 0 writes t or below. */
  lemma ChoosingWriters(writers: Writers, owners: map<Path, nat>, p: Path, q: Path, t: Path)
    requires IsIndexOf(writers, owners, [Write(0, p), Write(0, t), Write(1, q)], InModel({})) && !Related(q, t)
    ensures WritersOf(writers, t) != [] && forall w :: w in WritersOf(writers, t) ==> w == 0
  {
    var ws, dm := [Write(0, p), Write(0, t), Write(1, q)], InModel({});
    assert Claims(ws, dm, 1, t);
    if Claims(ws, dm, 0, t) {
      OwnerIs(writers, owners, ws, dm, 0, t);
    } else {
      OwnerIs(writers, owners, ws, dm, 1, t);
    }
    forall w | w in WritersOf(writers, t)
      ensures w == 0
    {
      var k :| k in owners && owners[k] == w && Extends(t, k);
      FirstClaimIsFirst(ws, dm, |ws|, k);
      var i :| 0 <= i < |ws| && Claims(ws, dm, i, k) && FirstClaim(ws, dm, |ws|, k) == Some(ws[i].block);
      ExtendsTransitive(t, k, ws[i].path);
    }
  }

  /** With the other arm nothing is demanded. */
  lemma OtherArmDemandsNothing(k: Shape, t: Path)
    requires k.plans == TwoArms(t) && !k.iterated(1) && k.selects(1)
    ensures Possible(k, These(OtherArm())) && forall b, w :: !Demands(k, These(OtherArm()), b, w)
  {
    forall b
      ensures CanPick(k, b, OtherArm()(b)) && Reads(k, b, OtherArm()(b)) == []
    {
      IdleReads(k, b);
      var other := MatchPick(Some("other"));
      assert MatchArmReads([ArmReads("other", [])], "other") == [];
      assert CollectAll([other], PlanOf(k, b)) == CollectReads(other, PlanOf(k, b)) + CollectAll([], PlanOf(k, b));
    }
  }

  lemma TwoArmsMayRead(k: Shape, t: Path, b: nat, r: Path)
    requires k.plans == TwoArms(t) && k.selects(1) && 1 in k.rules
    ensures MayRead(k, b, r) <==> b == 1 && r == t
  {
    var arms := [ArmReads("arm", [t]), ArmReads("other", [])];
    forall arm
      ensures MatchArmReads(arms, arm) == if arm == "arm" then [t] else []
    {
      assert arms[1..] == [ArmReads("other", [])] && arms[1..][1..] == [];
      assert MatchArmReads(arms[1..], arm) == [];
    }
    if MayRead(k, b, r) {
      var pick :| r in CollectReads(pick, PlanOf(k, b));
    }
    assert t in CollectReads(MatchPick(Some("arm")), PlanOf(k, 1));
  }

  /** Block 1 may demand block 0, and nothing else is demanded. */
  lemma TwoArmsDemand(k: Shape, t: Path, b: nat, w: nat)
    requires k.plans == TwoArms(t) && k.selects(1) && 1 in k.rules
    requires WritersOf(k.writers, t) != [] && forall w :: w in WritersOf(k.writers, t) ==> w == 0
    ensures Demands(k, Any, b, w) <==> b == 1 && w == 0
  {
    if Demands(k, Any, b, w) {
      var p :| ReadBy(k, Any, b, p) && w in WritersOf(k.writers, p);
      TwoArmsMayRead(k, t, b, p);
    }
    TwoArmsMayRead(k, t, 1, t);
    assert WritersOf(k.writers, t)[0] in WritersOf(k.writers, t);
    assert ReadBy(k, Any, 1, t);
  }

  lemma OnlyTwoConflict(k: Shape)
    requires k.rules == {0, 1} && Demands(k, Any, 1, 0)
    ensures Orderly(k, true)
  {
    forall b, w | b != w && Conflict(k, Any, b, w)
      ensures Leads(k, Any, b, w) || Leads(k, Any, w, b)
    {
      assert b in k.rules && w in k.rules;
    }
  }

  /** In every topological run block 1 comes after block 0, and its write stays. */
  lemma ChoosingKeeps(x: Case, p: Path, q: Path, t: Path, order: seq<nat>)
    requires Extends(p, q) && p != q && x == ChoosingCase(x.k.writers, p, q, t) && x.Valid()
    requires Demands(x.k, Any, 1, 0) && RunsAllBlocks(x.Policy(), true, order)
    ensures Get(Runs(x.Policy(), Begin(x.Policy()), order).store, q) == Found(Leaf(0))
  {
    InElements(order, 1);
    DemandedEarlier(x.Policy(), order, 0, 1);
    SafeOnce(x.Policy(), true, Begin(x.Policy()), order);
    FixedRuns(x.k, x.picks, x.out, Nobody, order);
    FoldBoth(x.k, 0, p, Object(map[]), 1, q, Leaf(0), order);
    WrittenBelow<int>(map[], p, q, Leaf(0));
  }

  lemma ChoosingLoses(x: Case, p: Path, q: Path, t: Path)
    requires Extends(p, q) && p != q && x == ChoosingCase(x.k.writers, p, q, t) && x.Valid()
    requires HeadOf(x.k, p, 0) && HeadOf(x.k, q, 1) && Blocks(x.k.writers) == {0, 1}
    requires forall b, w :: !Demands(x.k, These(x.picks), b, w)
    ensures Evaluation(x.Policy(), [q, p]).r.Ok? && Get(Evaluation(x.Policy(), [q, p]).st.store, q) == Absent
  {
    assert [q] + [p] == [q, p];
    WritersOfAllHas(x.k.writers, [q, p], 1);
    InElements(WritersOf(x.k.writers, p), 0);
    StartsWith(x, q, 1, 0, [p]);
    x.EvaluationKept([q, p]);
    EitherWay(map[], 0, (p, Object(map[])), 1, (q, Leaf(0)));
    FoldBoth(x.k, 1, q, Leaf(0), 0, p, Object(map[]), Evaluation(x.Policy(), [q, p]).st.order);
    WrittenBelow<int>(map[], p, q, Leaf(0));
  }

  /**
   Every topological run has block 0 before block 1, since block 1 may read t; where it
   does not, the driver may run block 1 first, and loses what it writes.
   */
  lemma ChoosingDiffers(writers: Writers, owners: map<Path, nat>, p: Path, q: Path, t: Path)
    requires IsIndexOf(writers, owners, [Write(0, p), Write(0, t), Write(1, q)], InModel({}))
    requires Extends(p, q) && p != q && !Related(q, t)
    ensures var a := Choosing(writers, p, q, t);
      && (forall order :: RunsAllBlocks(a, true, order) ==> Get(Runs(a, Begin(a), order).store, q) == Found(Leaf(0)))
      && RunsAllBlocks(a, true, [0, 1]) && Orderly(a.shape, true)
      && Evaluation(a, [q, p]).r.Ok? && Get(Evaluation(a, [q, p]).st.store, q) == Absent
  {
    var x := ChoosingCase(writers, p, q, t);
    ChoosingIndex(writers, owners, p, q, t);
    ChoosingWriters(writers, owners, p, q, t);
    OtherArmDemandsNothing(x.k, t);
    forall b, w
      ensures Demands(x.k, Any, b, w) <==> b == 1 && w == 0
    {
      TwoArmsDemand(x.k, t, b, w);
    }
    OnlyTwoConflict(x.k);
    TwoInOrder(x.Policy(), 0, 1);
    forall order | RunsAllBlocks(x.Policy(), true, order)
      ensures Get(Runs(x.Policy(), Begin(x.Policy()), order).store, q) == Found(Leaf(0))
    {
      ChoosingKeeps(x, p, q, t, order);
    }
    ChoosingLoses(x, p, q, t);
  }

  method ChoosingAnswers(p: Path, q: Path, t: Path) returns (a: Artifact<int>, lost: Store<int>)
    requires Extends(p, q) && p != q && !Related(q, t)
    ensures RunsAllBlocks(a, true, [0, 1]) && Orderly(a.shape, true)
    ensures forall order :: RunsAllBlocks(a, true, order) ==> Get(Runs(a, Begin(a), order).store, q) == Found(Leaf(0))
    ensures Get(lost, q) == Absent
  {
    var writers: Writers;
    ghost var owners;
    writers, owners := BuildIndex([Write(0, p), Write(0, t), Write(1, q)], InModel({}));
    a := Choosing(writers, p, q, t);
    ChoosingDiffers(writers, owners, p, q, t);
    lost := StoreAfter(a, [q, p]);
  }

  // ---------------------------------------------------------------- a path that is read but not indexed

  /** Block 0 writes q; block 1 reads p, above q, fails if it sees something there, and may write r. */
  function Unindexed(writers: Writers, p: Path, q: Path, r: Path): Artifact<int> {
    Fixed(TwoBlocks(writers, [Write(0, q), Write(1, r)], map[1 := ReadPlan([p], NoConditional)]), Only(IDLE),
          map[0 := (q, Leaf(0))], Watch(1, p))
  }

  ghost function UnindexedCase(writers: Writers, p: Path, q: Path, r: Path): Case {
    Case(Unindexed(writers, p, q, r).shape, Only(IDLE), map[0 := (q, Leaf(0))], Watch(1, p))
  }

  /** The data model has something else below p. */
  predicate BesideModel(p: Path, q: Path, r: Path, m: Path) {
    && Extends(p, q) && p != q && !Related(q, r)
    && Related(m, p) && !Related(m, q) && !Related(m, r)
  }

  lemma UnindexedWriters(writers: Writers, owners: map<Path, nat>, p: Path, q: Path, r: Path, m: Path)
    requires IsIndexOf(writers, owners, [Write(0, q), Write(1, r)], InModel({m})) && BesideModel(p, q, r, m)
    ensures WritersOf(writers, p) == []
  {
    if Extends(m, p) {
      ExtendsTransitive(m, p, q);
    }
    forall k | 0 <= k <= |p| && IsPrefixLength(p, k)
      ensures WritersFor(writers, p[..k]) == []
    {
      assert Extends(p[..k], p);
      ExtendsTransitive(p[..k], p, m);
      assert m in {m} && Related(m, p[..k]);
      FirstClaimIsFirst([Write(0, q), Write(1, r)], InModel({m}), 2, p[..k]);
      assert p[..k] !in owners;
      HasElement(WritersFor(writers, p[..k]));
    }
    WritersOfLongestPrefix(writers, p);
  }

  lemma UnindexedHeads(writers: Writers, owners: map<Path, nat>, p: Path, q: Path, r: Path, m: Path)
    requires IsIndexOf(writers, owners, [Write(0, q), Write(1, r)], InModel({m})) && BesideModel(p, q, r, m)
    ensures WritersOf(writers, q) != [] && WritersOf(writers, q)[0] == 0
    ensures WritersOf(writers, r) != [] && WritersOf(writers, r)[0] == 1
    ensures Blocks(writers) == {0, 1}
  {
    var ws, dm := [Write(0, q), Write(1, r)], InModel({m});
    assert Claims(ws, dm, 0, q) && Claims(ws, dm, 1, r) && !Claims(ws, dm, 0, r);
    OwnerIs(writers, owners, ws, dm, 0, q);
    OwnerIs(writers, owners, ws, dm, 1, r);
    HeadIsBlock(writers, q, 0);
    HeadIsBlock(writers, r, 1);
    forall b | b in Blocks(writers)
      ensures b in {0, 1}
    {
      IndexedBlocks(writers, owners, ws, dm, b);
    }
  }

  /** Blocks that read only paths without writers demand nothing. */
  lemma UnwrittenReads(k: Shape, c: Choice, p: Path)
    requires k.plans == map[1 := ReadPlan([p], NoConditional)] && Possible(k, c) && WritersOf(k.writers, p) == []
    ensures forall b, w :: !Demands(k, c, b, w)
  {
    forall b, r | ReadBy(k, c, b, r)
      ensures r == p
    {
      if c.These? {
        ReadsAreMayReads(k, b, c.picks(b), r);
      }
    }
  }

  /** Block 1 fails in the topological run that has block 0 first, and not where the driver demands r first. */
  lemma UnindexedDiffers(writers: Writers, owners: map<Path, nat>, p: Path, q: Path, r: Path, m: Path)
    requires IsIndexOf(writers, owners, [Write(0, q), Write(1, r)], InModel({m})) && BesideModel(p, q, r, m)
    ensures var a := Unindexed(writers, p, q, r);
      && RunsAllBlocks(a, true, [0, 1]) && RunsAllBlocks(a, true, [1, 0])
      && 1 in Runs(a, Begin(a), [0, 1]).results && Runs(a, Begin(a), [0, 1]).results[1].Err?
      && Evaluation(a, [r, q]).r.Ok? && Evaluation(a, [r, q]).st.ran == {0, 1}
  {
    var x := UnindexedCase(writers, p, q, r);
    UnindexedWriters(writers, owners, p, q, r, m);
    UnindexedHeads(writers, owners, p, q, r, m);
    IdleIsPossible(x.k);
    IdleReads(x.k, 1);
    UnwrittenReads(x.k, Any, p);
    UnwrittenReads(x.k, These(x.picks), p);
    TwoInOrder(x.Policy(), 0, 1);
    TwoInOrder(x.Policy(), 1, 0);
    UnindexedFails(x, p, q, r);
    UnindexedSucceeds(x, p, q, r);
  }

  lemma UnindexedFails(x: Case, p: Path, q: Path, r: Path)
    requires Extends(p, q) && !Related(q, r) && x == UnindexedCase(x.k.writers, p, q, r) && x.Valid()
    requires RunsAllBlocks(x.Policy(), true, [0, 1])
    ensures var a := x.Policy();
      1 in Runs(a, Begin(a), [0, 1]).results && Runs(a, Begin(a), [0, 1]).results[1].Err?
  {
    UnindexedClash(x, p, q, r);
    InOrder([0, 1]);
    WatchEnds(x.k, x.picks, 0, q, 1, p, true, [0, 1]);
  }

  lemma UnindexedClash(x: Case, p: Path, q: Path, r: Path)
    requires Extends(p, q) && !Related(q, r) && x == UnindexedCase(x.k.writers, p, q, r)
    ensures Clash(x.k, x.picks, 0, q, 1, p) && p !in WritesOf(x.k, 1)
    ensures x.Policy() == Fixed(x.k, x.picks, ClashOutput(x.k, 0, q, 1, p), Watch(1, p))
  {
    var ws := [Write(0, q), Write(1, r)];
    assert ws[0].block == 0 && ws[0].path == q && q in WritesOf(x.k, 0);
    assert forall y :: y in WritesOf(x.k, 1) ==> y == ws[1].path;
    IdleReads(x.k, 1);
    assert Reads(x.k, 1, IDLE) == [p];
  }

  lemma InOrder(order: seq<nat>)
    requires |order| == 2
    ensures Earlier(order, order[0], order[1]) && order[0] in order && order[1] in order
  {
  }

  lemma UnindexedSucceeds(x: Case, p: Path, q: Path, r: Path)
    requires Extends(p, q) && x == UnindexedCase(x.k.writers, p, q, r) && x.Valid()
    requires HeadOf(x.k, q, 0) && HeadOf(x.k, r, 1) && Blocks(x.k.writers) == {0, 1}
    requires forall b, w :: !Demands(x.k, These(x.picks), b, w)
    ensures Evaluation(x.Policy(), [r, q]).r.Ok? && Evaluation(x.Policy(), [r, q]).st.ran == {0, 1}
  {
    assert [r] + [q] == [r, q];
    LeadsNowhere(x.k, These(x.picks), 1, 0);
    WatcherFirst(x, 0, q, 1, p, r, [q]);
    WritersOfAllHas(x.k.writers, [r, q], 0);
    WritersOfAllHas(x.k.writers, [r, q], 1);
    InElements(WritersOf(x.k.writers, r), 1);
    InElements(WritersOf(x.k.writers, q), 0);
    EvaluationIsSafe(x.Policy(), [r, q]);
    OnlyIndexedRun(x.Policy(), [r, q]);
  }

  method UnindexedAnswers(p: Path, q: Path, r: Path, m: Path) returns (a: Artifact<int>, ok: Fallible<()>)
    requires BesideModel(p, q, r, m)
    ensures RunsAllBlocks(a, true, [0, 1]) && RunsAllBlocks(a, true, [1, 0])
    ensures 1 in Runs(a, Begin(a), [0, 1]).results && Runs(a, Begin(a), [0, 1]).results[1].Err?
    ensures ok.Ok?
  {
    var writers: Writers;
    ghost var owners;
    writers, owners := BuildIndex([Write(0, q), Write(1, r)], InModel({m}));
    a := Unindexed(writers, p, q, r);
    UnindexedDiffers(writers, owners, p, q, r, m);
    var store;
    ghost var st;
    ok, store, st := EvaluateRoots(a, [r, q], None);
  }

  // ---------------------------------------------------------------- a write to a path of the data model

  /** Block 0 writes m. */
  function Modelled(writers: Writers, m: Path): Artifact<int> {
    Fixed(TwoBlocks(writers, [Write(0, m)], map[]), Only(IDLE), map[0 := (m, Leaf(0))], Nobody)
  }

  /** The block is not indexed, so that the driver never runs it; every run of all blocks does. */
  lemma ModelledDiffers(writers: Writers, owners: map<Path, nat>, m: Path)
    requires IsIndexOf(writers, owners, [Write(0, m)], InModel({m}))
    ensures var a := Modelled(writers, m);
      && RunsAllBlocks(a, true, [0, 1])
      && Get(Runs(a, Begin(a), [0, 1]).store, m) == Found(Leaf(0))
      && Evaluation(a, [m]).r.Ok? && Get(Evaluation(a, [m]).st.store, m) == Absent
  {
    var a := Modelled(writers, m);
    var x := Case(a.shape, Only(IDLE), map[0 := (m, Leaf(0))], Nobody);
    forall b | b in Blocks(writers)
      ensures false
    {
      var k :| k in writers && b in writers[k];
      assert b in WritersFor(writers, k);
      var q :| q in owners && owners[q] == b && Extends(k, q);
      FirstClaimIsFirst([Write(0, m)], InModel({m}), 1, q);
    }
    assert Blocks(writers) == {};
    IdleIsPossible(x.k);
    IdleDemandsNothing(x.k, Any);
    TwoInOrder(a, 0, 1);
    ModelledRuns(x, m);
    x.EvaluationKept([m]);
    OnlyIndexedRun(a, [m]);
    InElements(Evaluation(a, [m]).st.order, 0);
    FoldOnly(x.k, 0, m, Leaf(0), Evaluation(a, [m]).st.order);
  }

  lemma ModelledRuns(x: Case, m: Path)
    requires x.Valid() && x.out == map[0 := (m, Leaf(0))] && x.watch == Nobody && 0 in x.k.rules
    ensures Get(Runs(x.Policy(), Begin(x.Policy()), [0, 1]).store, m) == Found(Leaf(0))
  {
    FixedRuns(x.k, x.picks, x.out, Nobody, [0, 1]);
    FoldOnly(x.k, 0, m, Leaf(0), [0, 1]);
    LookWritten<int>(map[], Parts(m), Leaf(0));
  }

  method ModelledAnswers(m: Path) returns (a: Artifact<int>, store: Store<int>)
    ensures RunsAllBlocks(a, true, [0, 1]) && Get(Runs(a, Begin(a), [0, 1]).store, m) == Found(Leaf(0))
    ensures Get(store, m) == Absent
  {
    var writers: Writers;
    ghost var owners;
    writers, owners := BuildIndex([Write(0, m)], InModel({m}));
    a := Modelled(writers, m);
    ModelledDiffers(writers, owners, m);
    store := StoreAfter(a, [m]);
  }
}
