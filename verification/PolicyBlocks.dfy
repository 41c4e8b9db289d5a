/**
 The blocks of a policy. A block first reads what it always reads, then selects (an
 arm, table cells), reads what the selection needs, and writes.

 What blocks compute is a parameter. Selecting sees what there is at the unconditional
 reads, committing also what there is at the reads picked.
 */
module PolicyBlocks {
  import opened PathOrder
  import opened Wrappers
  import opened WriterIndex
  import opened PolicyStore

  /** Every error of an evaluation is reported as its message. */
  type Fallible<+T> = Result<T, string>

  // ---------------------------------------------------------------- the compiled policy

  datatype CellReads = CellReads(row: nat, col: string, paths: seq<Path>)

  datatype ArmReads = ArmReads(arm: string, paths: seq<Path>)

  datatype ConditionalReads = NoConditional | MatchReads(arms: seq<ArmReads>) | TableReads(cells: seq<CellReads>)

  datatype ReadPlan = ReadPlan(unconditional: seq<Path>, conditional: ConditionalReads)

  /** What a block selected: nothing to select, a match arm if any matched, or table cells. */
  datatype Pick = Unconditional | MatchPick(arm: Option<string>) | TablePick(used: seq<(nat, string)>)

  /**
   What is known of a policy before it runs: the writer index, what each block may
   write, the blocks that have a rule, what they read, which ones are iterated over an
   array, and which ones are a match or a table and select.
   */
  datatype Shape = Shape(
    writers: Writers,
    writes: nat -> set<Path>,
    rules: set<nat>,
    plans: map<nat, ReadPlan>,
    iterated: nat -> bool,
    selects: nat -> bool
  )

  /**
   The shape, the input, and what the blocks compute. instances is None when the array
   that a block is iterated over is missing. What the instances of a block give is
   spread over the paths it writes.
   */
  datatype Artifact<!V> = Artifact(
    shape: Shape,
    input: Store<V>,
    instances: (nat, View<V>) -> Option<nat>,
    select: (nat, nat, View<V>) -> Fallible<Pick>,
    commit: (nat, nat, Pick, seq<V>, View<V>) -> Fallible<V>,
    spread: (nat, seq<V>) -> Writes<V>
  )

  /** Blocks write only what they are said to write. */
  ghost predicate Declares<V(!new)>(a: Artifact<V>) {
    forall b, vs, i :: 0 <= i < |a.spread(b, vs)| ==> a.spread(b, vs)[i].0 in a.shape.writes(b)
  }

  // ---------------------------------------------------------------- reads

  function MatchArmReads(arms: seq<ArmReads>, arm: string): seq<Path> {
    if arms == [] then []
    else if arms[0].arm == arm then arms[0].paths
    else MatchArmReads(arms[1..], arm)
  }

  function TableCellReads(cells: seq<CellReads>, row: nat, col: string): seq<Path> {
    if cells == [] then []
    else
      (if cells[0].row == row && cells[0].col == col then cells[0].paths else []) + TableCellReads(cells[1..], row, col)
  }

  function UsedCellReads(cells: seq<CellReads>, used: seq<(nat, string)>): seq<Path> {
    if used == [] then [] else TableCellReads(cells, used[0].0, used[0].1) + UsedCellReads(cells, used[1..])
  }

  /** What a pick reads beyond the unconditional reads. */
  function CollectReads(pick: Pick, plan: ReadPlan): seq<Path> {
    match pick
    case Unconditional => []
    case MatchPick(arm) =>
      if arm.Some? && plan.conditional.MatchReads? then MatchArmReads(plan.conditional.arms, arm.value) else []
    case TablePick(used) =>
      if plan.conditional.TableReads? then UsedCellReads(plan.conditional.cells, used) else []
  }

  /** A table pick reads the paths of the cells of the plan that it used. */
  lemma TableReadsExactly(used: seq<(nat, string)>, cells: seq<CellReads>, always: seq<Path>, p: Path)
    ensures p in CollectReads(TablePick(used), ReadPlan(always, TableReads(cells))) <==>
      exists u, c :: u in used && c in cells && c.row == u.0 && c.col == u.1 && p in c.paths
  {
    UsedCells(cells, used, p);
  }

  lemma {:induction false} UsedCells(cells: seq<CellReads>, used: seq<(nat, string)>, p: Path)
    ensures p in UsedCellReads(cells, used) <==>
      exists u, c :: u in used && c in cells && c.row == u.0 && c.col == u.1 && p in c.paths
  {
    if used != [] {
      UsedCells(cells, used[1..], p);
      CellsOfPlan(cells, used[0].0, used[0].1, p);
      if c :| c in cells && c.row == used[0].0 && c.col == used[0].1 && p in c.paths {
        assert used[0] in used;
      }
      assert used == [used[0]] + used[1..];
    }
  }

  lemma {:induction false} CellsOfPlan(cells: seq<CellReads>, row: nat, col: string, p: Path)
    ensures p in TableCellReads(cells, row, col) <==>
      exists c :: c in cells && c.row == row && c.col == col && p in c.paths
  {
    if cells != [] {
      CellsOfPlan(cells[1..], row, col, p);
      assert cells == [cells[0]] + cells[1..];
      if cells[0].row == row && cells[0].col == col && p in cells[0].paths {
        assert cells[0] in cells;
      }
    }
  }

  /** In the order of the cells used, and for each of them in the order of the plan. */
  lemma {:induction false} TableReadsInOrder(used: seq<(nat, string)>, u: (nat, string), cells: seq<CellReads>,
      c: CellReads)
    ensures UsedCellReads(cells, used + [u]) == UsedCellReads(cells, used) + TableCellReads(cells, u.0, u.1)
    ensures c.row == u.0 && c.col == u.1 ==>
      TableCellReads(cells + [c], u.0, u.1) == TableCellReads(cells, u.0, u.1) + c.paths
    ensures c.row != u.0 || c.col != u.1 ==> TableCellReads(cells + [c], u.0, u.1) == TableCellReads(cells, u.0, u.1)
    decreases |used| + |cells|
  {
    if used == [] {
      assert ([u] + [])[1..] == [] && used + [u] == [u];
    } else {
      assert (used + [u])[1..] == used[1..] + [u];
      TableReadsInOrder(used[1..], u, cells, c);
    }
    OneMoreCell(cells, c, u.0, u.1);
  }

  lemma {:induction false} OneMoreCell(cells: seq<CellReads>, c: CellReads, row: nat, col: string)
    ensures TableCellReads(cells + [c], row, col) ==
      TableCellReads(cells, row, col) + if c.row == row && c.col == col then c.paths else []
  {
    if cells == [] {
      assert (cells + [c])[1..] == [];
    } else {
      assert (cells + [c])[1..] == cells[1..] + [c];
      OneMoreCell(cells[1..], c, row, col);
    }
  }

  /** A match pick reads the paths of the first arm of that name, if it matched one. */
  lemma {:induction false} MatchReadsExactly(arms: seq<ArmReads>, always: seq<Path>, arm: string)
    ensures CollectReads(MatchPick(None), ReadPlan(always, MatchReads(arms))) == []
    ensures forall i :: 0 <= i < |arms| && arms[i].arm == arm && (forall j :: 0 <= j < i ==> arms[j].arm != arm) ==>
      CollectReads(MatchPick(Some(arm)), ReadPlan(always, MatchReads(arms))) == arms[i].paths
    ensures (forall i :: 0 <= i < |arms| ==> arms[i].arm != arm) ==>
      CollectReads(MatchPick(Some(arm)), ReadPlan(always, MatchReads(arms))) == []
  {
    FirstArm(arms, arm);
  }

  lemma {:induction false} FirstArm(arms: seq<ArmReads>, arm: string)
    ensures forall i :: 0 <= i < |arms| && arms[i].arm == arm && (forall j :: 0 <= j < i ==> arms[j].arm != arm) ==>
      MatchArmReads(arms, arm) == arms[i].paths
    ensures (forall i :: 0 <= i < |arms| ==> arms[i].arm != arm) ==> MatchArmReads(arms, arm) == []
  {
    if arms != [] && arms[0].arm != arm {
      FirstArm(arms[1..], arm);
      assert forall i :: 0 < i < |arms| ==> arms[1..][i - 1] == arms[i];
      forall i | 0 <= i < |arms| && arms[i].arm == arm && forall j :: 0 <= j < i ==> arms[j].arm != arm
        ensures MatchArmReads(arms, arm) == arms[i].paths
      {
        assert arms[1..][i - 1] == arms[i];
      }
    }
  }

  /** Without a selection nothing more is read, nor with one of another kind than the plan. */
  lemma OtherReads(always: seq<Path>, arm: Option<string>, used: seq<(nat, string)>, conditional: ConditionalReads)
    ensures CollectReads(Unconditional, ReadPlan(always, conditional)) == []
    ensures !conditional.TableReads? ==> CollectReads(TablePick(used), ReadPlan(always, conditional)) == []
    ensures !conditional.MatchReads? ==> CollectReads(MatchPick(arm), ReadPlan(always, conditional)) == []
  {
  }

  function CollectAll(picks: seq<Pick>, plan: ReadPlan): seq<Path> {
    if picks == [] then [] else CollectReads(picks[0], plan) + CollectAll(picks[1..], plan)
  }

  function PlanOf(k: Shape, b: nat): ReadPlan {
    if b in k.plans then k.plans[b] else ReadPlan([], NoConditional)
  }

  function Always(k: Shape, b: nat): seq<Path> {
    PlanOf(k, b).unconditional
  }

  /** What a block demands after selecting, in order; iterated blocks sort what their instances demand. */
  function DemandedBy(k: Shape, b: nat, picks: seq<Pick>): seq<Path> {
    var all := CollectAll(picks, PlanOf(k, b));
    if k.iterated(b) then SortDedup(all) else all
  }

  /** The reads of the picks, one pick after the other. */
  lemma {:induction false} CollectAllExactly(picks: seq<Pick>, pick: Pick, plan: ReadPlan)
    ensures CollectAll([], plan) == []
    ensures CollectAll(picks + [pick], plan) == CollectAll(picks, plan) + CollectReads(pick, plan)
  {
    if picks == [] {
      assert (picks + [pick])[1..] == [];
    } else {
      assert (picks + [pick])[1..] == picks[1..] + [pick];
      CollectAllExactly(picks[1..], pick, plan);
    }
  }

  lemma {:induction false} CollectAllHas(picks: seq<Pick>, plan: ReadPlan, p: Path)
    ensures p in CollectAll(picks, plan) <==> exists pick :: pick in picks && p in CollectReads(pick, plan)
  {
    if picks != [] {
      CollectAllHas(picks[1..], plan, p);
      assert picks == [picks[0]] + picks[1..];
      if p in CollectReads(picks[0], plan) {
        assert picks[0] in picks;
      }
    }
  }

  /** A block demands what its picks read; if it is iterated, in strict order, and otherwise as it comes. */
  lemma DemandedExactly(k: Shape, b: nat, picks: seq<Pick>, plan: ReadPlan)
    requires plan == if b in k.plans then k.plans[b] else ReadPlan([], NoConditional)
    ensures forall p :: p in DemandedBy(k, b, picks) <==> exists pick :: pick in picks && p in CollectReads(pick, plan)
    ensures k.iterated(b) ==>
      var demanded := DemandedBy(k, b, picks);
      forall i, j :: 0 <= i < j < |demanded| ==> PathLess(demanded[i], demanded[j])
    ensures !k.iterated(b) ==> DemandedBy(k, b, picks) == CollectAll(picks, plan)
  {
    forall p
      ensures p in CollectAll(picks, plan) <==> exists pick :: pick in picks && p in CollectReads(pick, plan)
    {
      CollectAllHas(picks, plan, p);
    }
    SortDedupSorts(CollectAll(picks, plan));
  }

  /** All that a block reads with these picks. */
  function Reads(k: Shape, b: nat, picks: seq<Pick>): seq<Path> {
    if b in k.rules then Always(k, b) + DemandedBy(k, b, picks) else []
  }

  /** Block b may read p, always or after some selection. */
  ghost predicate MayRead(k: Shape, b: nat, p: Path) {
    b in k.rules && (p in Always(k, b) || (k.selects(b) && exists pick :: p in CollectReads(pick, PlanOf(k, b))))
  }

  /** What block b may write. */
  function WritesOf(k: Shape, b: nat): set<Path> {
    if b in k.rules then k.writes(b) else {}
  }

  /** Picks that the block can make: one for each instance, and none if it does not select. */
  predicate CanPick(k: Shape, b: nat, picks: seq<Pick>) {
    && picks != [] && (k.iterated(b) || |picks| == 1)
    && (k.selects(b) || forall i :: 0 <= i < |picks| ==> picks[i] == Unconditional)
  }

  /** The picks of a block that does not get so far. */
  const IDLE: seq<Pick> := [Unconditional]

  lemma IdleReads(k: Shape, b: nat)
    ensures CanPick(k, b, IDLE) && DemandedBy(k, b, IDLE) == [] && DemandedBy(k, b, []) == []
  {
    assert CollectAll(IDLE, PlanOf(k, b)) == [];
  }

  lemma {:induction false} CollectedIsRead(k: Shape, b: nat, picks: seq<Pick>, p: Path)
    requires p in CollectAll(picks, PlanOf(k, b)) && b in k.rules
    requires k.selects(b) || forall i :: 0 <= i < |picks| ==> picks[i] == Unconditional
    ensures MayRead(k, b, p)
  {
    if p !in CollectReads(picks[0], PlanOf(k, b)) {
      CollectedIsRead(k, b, picks[1..], p);
    }
  }

  lemma ReadsAreMayReads(k: Shape, b: nat, picks: seq<Pick>, p: Path)
    requires CanPick(k, b, picks) && p in Reads(k, b, picks)
    ensures MayRead(k, b, p)
  {
    if p in DemandedBy(k, b, picks) {
      CollectedIsRead(k, b, picks, p);
    }
  }

  // ---------------------------------------------------------------- what a block computes from what it sees

  /** The selections of the instances from i to n, up to the first error. */
  function SelectAll<V>(a: Artifact<V>, b: nat, i: nat, n: nat, view: View<V>): Fallible<seq<Pick>>
    decreases n - i
  {
    if i >= n then Ok([])
    else if !a.shape.selects(b) then
      match SelectAll(a, b, i + 1, n, view)
      case Err(e) => Err(e)
      case Ok(rest) => Ok([Unconditional] + rest)
    else
      match a.select(b, i, view)
      case Err(e) => Err(e)
      case Ok(pick) =>
        match SelectAll(a, b, i + 1, n, view)
        case Err(e) => Err(e)
        case Ok(rest) => Ok([pick] + rest)
  }

  /** The commits of the instances from |done| on, each after the ones before it. */
  function CommitAll<V>(a: Artifact<V>, b: nat, picks: seq<Pick>, done: seq<V>, view: View<V>): Fallible<seq<V>>
    decreases |picks| - |done|
  {
    if |done| >= |picks| then Ok(done)
    else
      match a.commit(b, |done|, picks[|done|], done, view)
      case Err(e) => Err(e)
      case Ok(v) => CommitAll(a, b, picks, done + [v], view)
  }

  /** How many instances a block runs for. */
  function Count<V>(a: Artifact<V>, b: nat, view: View<V>): Option<nat> {
    if a.shape.iterated(b) then a.instances(b, view) else Some(1)
  }

  /** The selection of a block: an error, the picks, or None if there is no array to iterate over. */
  function Selected<V>(a: Artifact<V>, b: nat, view: View<V>): Fallible<Option<seq<Pick>>> {
    match Count(a, b, view)
    case None => Ok(None)
    case Some(n) =>
      match SelectAll(a, b, 0, n, view)
      case Err(e) => Err(e)
      case Ok(picks) => Ok(Some(picks))
  }

  /** What a block ends with: an error, what it wrote, or None if it wrote nothing. */
  type Outcome<+V> = Fallible<Option<Writes<V>>>

  /** The commit of a block. */
  function Committing<V>(a: Artifact<V>, b: nat, picks: seq<Pick>, view: View<V>): Outcome<V> {
    match CommitAll(a, b, picks, [], view)
    case Err(e) => Err(e)
    case Ok(vs) => Ok(Some(a.spread(b, vs)))
  }

  lemma {:induction false} SelectedPicks<V>(a: Artifact<V>, b: nat, i: nat, n: nat, view: View<V>)
    requires i <= n && SelectAll(a, b, i, n, view).Ok?
    ensures |SelectAll(a, b, i, n, view).value| == n - i
    ensures a.shape.selects(b) ||
      forall j :: 0 <= j < n - i ==> SelectAll(a, b, i, n, view).value[j] == Unconditional
    decreases n - i
  {
    if i < n {
      SelectedPicks(a, b, i + 1, n, view);
    }
  }

  /** These are the selections of all instances of a block, one for each, made on what it sees. */
  ghost predicate PicksFrom<V>(a: Artifact<V>, b: nat, picks: seq<Pick>, view: View<V>) {
    && (if a.shape.iterated(b) then a.instances(b, view) == Some(|picks|) else |picks| == 1)
    && forall i :: 0 <= i < |picks| ==>
         if a.shape.selects(b) then a.select(b, i, view) == Ok(picks[i]) else picks[i] == Unconditional
  }

  /** These are the commits of all instances, each after the ones before it. */
  ghost predicate ValuesFrom<V>(a: Artifact<V>, b: nat, picks: seq<Pick>, vs: seq<V>, view: View<V>) {
    |vs| == |picks| && forall i :: 0 <= i < |vs| ==> a.commit(b, i, picks[i], vs[..i], view) == Ok(vs[i])
  }

  /** The selection of some instance fails, and of those before it does not. */
  ghost predicate SelectFails<V>(a: Artifact<V>, b: nat, e: string, view: View<V>) {
    && a.shape.selects(b)
    && exists i: nat ::
         && (if a.shape.iterated(b) then a.instances(b, view).Some? && i < a.instances(b, view).value else i == 0)
         && a.select(b, i, view) == Err(e) && forall j :: 0 <= j < i ==> a.select(b, j, view).Ok?
  }

  /** The commit of some instance fails after the commits vs of those before it. */
  ghost predicate CommitFails<V>(a: Artifact<V>, b: nat, picks: seq<Pick>, vs: seq<V>, e: string, view: View<V>) {
    && |vs| < |picks| && a.commit(b, |vs|, picks[|vs|], vs, view) == Err(e)
    && forall i :: 0 <= i < |vs| ==> a.commit(b, i, picks[i], vs[..i], view) == Ok(vs[i])
  }

  lemma {:induction false} SelectsEach<V>(a: Artifact<V>, b: nat, i: nat, n: nat, view: View<V>)
    requires i <= n && a.shape.selects(b)
    ensures var r := SelectAll(a, b, i, n, view);
      && (r.Ok? ==> |r.value| == n - i && forall j :: i <= j < n ==> a.select(b, j, view) == Ok(r.value[j - i]))
      && (r.Err? ==> exists j ::
            && i <= j < n && a.select(b, j, view) == Err(r.error)
            && forall m :: i <= m < j ==> a.select(b, m, view).Ok?)
    decreases n - i
  {
    if i < n && a.select(b, i, view).Ok? {
      SelectsEach(a, b, i + 1, n, view);
      var r := SelectAll(a, b, i + 1, n, view);
      if r.Err? {
        var j :| i + 1 <= j < n && a.select(b, j, view) == Err(r.error) &&
          forall m :: i + 1 <= m < j ==> a.select(b, m, view).Ok?;
        assert a.select(b, j, view) == Err(r.error);
      }
    }
  }

  /** A block selects for all its instances, fails with the first selection that does, or has no array. */
  lemma SelectedExactly<V>(a: Artifact<V>, b: nat, view: View<V>)
    ensures match Selected(a, b, view)
      case Ok(Some(picks)) => PicksFrom(a, b, picks, view)
      case Ok(None) => a.shape.iterated(b) && a.instances(b, view).None?
      case Err(e) => SelectFails(a, b, e, view)
  {
    if Count(a, b, view).Some? {
      var n := Count(a, b, view).value;
      if a.shape.selects(b) {
        SelectsEach(a, b, 0, n, view);
      } else {
        SelectsNothing(a, b, 0, n, view);
        SelectedPicks(a, b, 0, n, view);
      }
    }
  }

  lemma {:induction false} SelectsNothing<V>(a: Artifact<V>, b: nat, i: nat, n: nat, view: View<V>)
    requires i <= n && !a.shape.selects(b)
    ensures SelectAll(a, b, i, n, view).Ok?
    decreases n - i
  {
    if i < n {
      SelectsNothing(a, b, i + 1, n, view);
    }
  }

  lemma {:induction false} CommitsEach<V>(a: Artifact<V>, b: nat, picks: seq<Pick>, done: seq<V>, view: View<V>)
    returns (vs: seq<V>)
    requires |done| <= |picks|
    requires forall i :: 0 <= i < |done| ==> a.commit(b, i, picks[i], done[..i], view) == Ok(done[i])
    ensures CommitAll(a, b, picks, done, view).Ok? ==>
      CommitAll(a, b, picks, done, view) == Ok(vs) && ValuesFrom(a, b, picks, vs, view)
    ensures CommitAll(a, b, picks, done, view).Err? ==>
      CommitFails(a, b, picks, vs, CommitAll(a, b, picks, done, view).error, view)
    decreases |picks| - |done|
  {
    vs := done;
    if |done| < |picks| {
      var r := a.commit(b, |done|, picks[|done|], done, view);
      if r.Ok? {
        var more := done + [r.value];
        forall i | 0 <= i < |more|
          ensures a.commit(b, i, picks[i], more[..i], view) == Ok(more[i])
        {
          assert more[..i] == done[..i];
          assert done[..|done|] == done;
        }
        vs := CommitsEach(a, b, picks, more, view);
      }
    }
  }

  /** A block writes what the commits of all its instances give, or fails with the first commit that does. */
  lemma CommittedExactly<V>(a: Artifact<V>, b: nat, picks: seq<Pick>, view: View<V>) returns (vs: seq<V>)
    ensures match Committing(a, b, picks, view)
      case Ok(Some(ws)) => ValuesFrom(a, b, picks, vs, view) && ws == a.spread(b, vs)
      case Ok(None) => false
      case Err(e) => CommitFails(a, b, picks, vs, e, view)
  {
    vs := CommitsEach(a, b, picks, [], view);
  }

  lemma SelectedCanPick<V>(a: Artifact<V>, b: nat, view: View<V>)
    requires Selected(a, b, view).Ok? && Selected(a, b, view).value.Some? && Selected(a, b, view).value.value != []
    ensures CanPick(a.shape, b, Selected(a, b, view).value.value)
  {
    SelectedPicks(a, b, 0, Count(a, b, view).value, view);
  }
}
