/**
 Policies whose blocks pick and write the same whatever they see, and of which one may
 fail, in any case or if it sees something where it watches. They show what happens
 where blocks are not ordered by what they demand.
 */
module FixedPolicies {
  import opened PathOrder
  import opened Wrappers
  import opened WriterIndex
  import opened PolicyStore
  import opened PolicyBlocks
  import opened PolicyRuns
  import opened PolicyDriver
  import opened DriverSafety

  /** A block that fails if it sees something at a path, or in any case. */
  datatype Watch = Nobody | Watch(block: nat, path: Path) | Failing(block: nat)

  predicate Alarmed(watch: Watch, b: nat, view: View<int>) {
    match watch
    case Nobody => false
    case Watch(block, path) => block == b && path in view && view[path] != Absent
    case Failing(block) => block == b
  }

  /** What the blocks write: one path each, or nothing. */
  type Output = map<nat, (Path, Value<int>)>

  function WritesIn(out: Output, b: nat): Writes<int> {
    if b in out then [out[b]] else []
  }

  function Fixed(k: Shape, picks: nat -> seq<Pick>, out: Output, watch: Watch): Artifact<int> {
    Artifact(
      k,
      map[],
      (b: nat, view: View<int>) => Some(|picks(b)|),
      (b: nat, i: nat, view: View<int>) => Ok(if i < |picks(b)| then picks(b)[i] else Unconditional),
      (b: nat, i: nat, pick: Pick, done: seq<int>, view: View<int>) =>
        if Alarmed(watch, b, view) then Err("seen") else Ok(0),
      (b: nat, vs: seq<int>) => WritesIn(out, b))
  }

  /** What is written is what blocks may write, and the picks are possible. */
  ghost predicate Proper(k: Shape, picks: nat -> seq<Pick>, out: Output) {
    && Possible(k, These(picks))
    && forall b :: b in out ==> out[b].0 in k.writes(b)
  }

  lemma FixedDeclares(k: Shape, picks: nat -> seq<Pick>, out: Output, watch: Watch)
    requires Proper(k, picks, out)
    ensures Declares(Fixed(k, picks, out, watch))
  {
    var a := Fixed(k, picks, out, watch);
    forall b, vs, i | 0 <= i < |a.spread(b, vs)|
      ensures a.spread(b, vs)[i].0 in k.writes(b)
    {
      assert a.spread(b, vs) == WritesIn(out, b);
    }
  }

  lemma {:induction false} FixedSelects(k: Shape, picks: nat -> seq<Pick>, out: Output, watch: Watch, b: nat, i: nat,
      view: View<int>)
    requires CanPick(k, b, picks(b)) && i <= |picks(b)|
    ensures SelectAll(Fixed(k, picks, out, watch), b, i, |picks(b)|, view) == Ok(picks(b)[i..])
    decreases |picks(b)| - i
  {
    var a, mine := Fixed(k, picks, out, watch), picks(b);
    if i == |mine| {
      assert mine[i..] == [];
    } else {
      FixedSelects(k, picks, out, watch, b, i + 1, view);
      assert SelectAll(a, b, i + 1, |mine|, view) == Ok(mine[i + 1..]);
      assert [mine[i]] + mine[i + 1..] == mine[i..];
      if k.selects(b) {
        assert a.select(b, i, view) == Ok(mine[i]);
        assert SelectAll(a, b, i, |mine|, view) == Ok([mine[i]] + mine[i + 1..]);
      } else {
        assert SelectAll(a, b, i, |mine|, view) == Ok([Unconditional] + mine[i + 1..]);
      }
    }
  }

  lemma FixedSelected(k: Shape, picks: nat -> seq<Pick>, out: Output, watch: Watch, b: nat, view: View<int>)
    requires CanPick(k, b, picks(b))
    ensures Selected(Fixed(k, picks, out, watch), b, view) == Ok(Some(picks(b)))
  {
    FixedSelects(k, picks, out, watch, b, 0, view);
    assert picks(b)[0..] == picks(b);
  }

  lemma {:induction false} FixedCommits(k: Shape, picks: nat -> seq<Pick>, out: Output, watch: Watch, b: nat,
      done: seq<int>, view: View<int>)
    requires |done| <= |picks(b)|
    ensures var r := CommitAll(Fixed(k, picks, out, watch), b, picks(b), done, view);
      if |done| < |picks(b)| && Alarmed(watch, b, view) then r == Err("seen") else r.Ok?
    decreases |picks(b)| - |done|
  {
    if |done| < |picks(b)| && !Alarmed(watch, b, view) {
      FixedCommits(k, picks, out, watch, b, done + [0], view);
    }
  }

  lemma FixedCommitting(k: Shape, picks: nat -> seq<Pick>, out: Output, watch: Watch, b: nat, view: View<int>)
    requires CanPick(k, b, picks(b))
    ensures Committing(Fixed(k, picks, out, watch), b, picks(b), view) ==
      if Alarmed(watch, b, view) then Err("seen") else Ok(Some(WritesIn(out, b)))
  {
    FixedCommits(k, picks, out, watch, b, [], view);
  }

  // ---------------------------------------------------------------- what is left in the store

  /** What the blocks write, one after the other. */
  function Fold(k: Shape, out: Output, order: seq<nat>): Store<int> {
    if order == [] then map[]
    else
      var last := order[|order| - 1];
      Apply(Fold(k, out, order[..|order| - 1]), if last in k.rules then WritesIn(out, last) else [])
  }

  lemma FoldOneMore(k: Shape, out: Output, order: seq<nat>, b: nat)
    ensures Fold(k, out, order + [b]) == Apply(Fold(k, out, order), if b in k.rules then WritesIn(out, b) else [])
  {
    assert (order + [b])[..|order|] == order;
  }

  lemma ApplyOne<V>(s: Store<V>, p: Path, v: Value<V>)
    ensures Apply(s, [(p, v)]) == Put(s, p, v)
  {
    assert [(p, v)][..0] == [];
  }

  lemma {:induction false} FoldNone(k: Shape, out: Output, order: seq<nat>)
    requires forall b :: b in order ==> b !in out
    ensures Fold(k, out, order) == map[]
  {
    if order != [] {
      FoldNone(k, out, order[..|order| - 1]);
    }
  }

  /** Only b writes. */
  lemma {:induction false} FoldOnly(k: Shape, b: nat, p: Path, v: Value<int>, order: seq<nat>)
    requires NoDuplicates(order) && b in k.rules
    ensures Fold(k, map[b := (p, v)], order) == if b in order then Put(map[], p, v) else map[]
  {
    if order != [] {
      var n := |order| - 1;
      var out := map[b := (p, v)];
      FoldOnly(k, b, p, v, order[..n]);
      if order[n] == b {
        ApplyOne(Fold(k, out, order[..n]), p, v);
      }
    }
  }

  lemma {:induction false} FoldBoth(k: Shape, b: nat, p: Path, v: Value<int>, w: nat, q: Path, u: Value<int>,
      order: seq<nat>)
    requires NoDuplicates(order) && b in k.rules && w in k.rules && b != w && Earlier(order, b, w)
    ensures Fold(k, map[b := (p, v), w := (q, u)], order) == Put(Put(map[], p, v), q, u)
  {
    var n := |order| - 1;
    var out := map[b := (p, v), w := (q, u)];
    var i, j :| 0 <= i < j < |order| && order[i] == b && order[j] == w;
    if j == n {
      assert order[..n][i] == b;
      FoldFirst(k, b, p, v, w, q, u, order[..n]);
      ApplyOne(Fold(k, out, order[..n]), q, u);
    } else {
      assert order[..n][i] == b && order[..n][j] == w;
      FoldBoth(k, b, p, v, w, q, u, order[..n]);
    }
  }

  lemma {:induction false} FoldFirst(k: Shape, b: nat, p: Path, v: Value<int>, w: nat, q: Path, u: Value<int>,
      order: seq<nat>)
    requires NoDuplicates(order) && b in k.rules && b != w && w !in order
    ensures Fold(k, map[b := (p, v), w := (q, u)], order) == if b in order then Put(map[], p, v) else map[]
  {
    if order != [] {
      var n := |order| - 1;
      var out := map[b := (p, v), w := (q, u)];
      FoldFirst(k, b, p, v, w, q, u, order[..n]);
      if order[n] == b {
        ApplyOne(Fold(k, out, order[..n]), p, v);
      }
    }
  }

  // ---------------------------------------------------------------- runs one after the other

  /** The blocks have run without error, and have written what they write. */
  ghost predicate Plain(k: Shape, out: Output, st: Stage<int>, order: seq<nat>) {
    st.store == Fold(k, out, order) && forall b :: b in st.results ==> st.results[b].Ok?
  }

  lemma {:induction false} NoErrorYet(k: Shape, results: map<nat, Outcome<int>>, paths: seq<Path>)
    requires forall b :: b in results ==> results[b].Ok?
    ensures FirstError(k, results, paths) == None
  {
    if paths != [] {
      NoErrorYetOf(results, WritersOf(k.writers, paths[0]));
      NoErrorYet(k, results, paths[1..]);
    }
  }

  lemma {:induction false} NoErrorYetOf(results: map<nat, Outcome<int>>, blocks: seq<nat>)
    requires forall b :: b in results ==> results[b].Ok?
    ensures FirstErrorOf(results, blocks) == None
  {
    if blocks != [] {
      NoErrorYetOf(results, blocks[1..]);
    }
  }

  /** The turn of a block where there has been no error. */
  lemma FixedTurn(k: Shape, picks: nat -> seq<Pick>, out: Output, watch: Watch, st: Stage<int>, b: nat)
    requires Possible(k, These(picks)) && forall x :: x in st.results ==> st.results[x].Ok?
    ensures var a := Fixed(k, picks, out, watch);
      ResultAt(a, st, b) == if b !in k.rules then Ok(None)
        else if Alarmed(watch, b, ViewOf(st.store, Reads(k, b, picks(b)))) then Err("seen")
        else Ok(Some(WritesIn(out, b)))
  {
    var a := Fixed(k, picks, out, watch);
    if b in k.rules {
      NoErrorYet(k, st.results, Always(k, b));
      NoErrorYet(k, st.results, DemandedBy(k, b, picks(b)));
      FixedSelected(k, picks, out, watch, b, ViewOf(st.store, Always(k, b)));
      FixedCommitting(k, picks, out, watch, b, ViewOf(st.store, Reads(k, b, picks(b))));
    }
  }

  /** Runs up to the turn of the watching block. */
  lemma {:induction false} FixedRuns(k: Shape, picks: nat -> seq<Pick>, out: Output, watch: Watch, order: seq<nat>)
    requires Possible(k, These(picks)) && (watch.Nobody? || watch.block !in order)
    ensures var a := Fixed(k, picks, out, watch);
      Plain(k, out, Runs(a, Begin(a), order), order)
    decreases |order|
  {
    var a := Fixed(k, picks, out, watch);
    if order != [] {
      var n := |order| - 1;
      FixedRuns(k, picks, out, watch, order[..n]);
      FixedStep(k, picks, out, watch, Runs(a, Begin(a), order[..n]), order[..n], order[n]);
      LastRun(a, Begin(a), order[..n], order[n]);
      assert order == order[..n] + [order[n]];
    }
  }

  lemma LastRun<V>(a: Artifact<V>, st: Stage<V>, order: seq<nat>, b: nat)
    ensures Runs(a, st, order + [b]) == After(a, Runs(a, st, order), b)
  {
    RunsBoth(a, false, st, order, [b]);
    assert [b][1..] == [];
  }

  lemma FixedStep(k: Shape, picks: nat -> seq<Pick>, out: Output, watch: Watch, st: Stage<int>, order: seq<nat>, b: nat)
    requires Possible(k, These(picks)) && Plain(k, out, st, order) && (watch.Nobody? || watch.block != b)
    ensures Plain(k, out, After(Fixed(k, picks, out, watch), st, b), order + [b])
  {
    FixedTurn(k, picks, out, watch, st, b);
    FoldOneMore(k, out, order, b);
  }

  /** An order that respects the picks can be run. */
  lemma {:induction false} FixedIsSafe(k: Shape, picks: nat -> seq<Pick>, out: Output, watch: Watch, st: Stage<int>,
      order: seq<nat>)
    requires Possible(k, These(picks)) && Topological(k, These(picks), st.results.Keys, order)
    ensures Safe(Fixed(k, picks, out, watch), false, st, order)
    decreases |order|
  {
    if order != [] {
      var a, b := Fixed(k, picks, out, watch), order[0];
      FixedNeeds(k, picks, out, watch, st, b);
      assert After(a, st, b).results.Keys == st.results.Keys + {b};
      FixedIsSafe(k, picks, out, watch, After(a, st, b), order[1..]);
    }
  }

  lemma FixedNeeds(k: Shape, picks: nat -> seq<Pick>, out: Output, watch: Watch, st: Stage<int>, b: nat)
    requires Possible(k, These(picks)) && NeedsIn(k, These(picks), b, st.results.Keys)
    ensures NeedsIn(k, These(Only(PicksAt(Fixed(k, picks, out, watch), st, b))), b, st.results.Keys)
  {
    var a := Fixed(k, picks, out, watch);
    var mine := PicksAt(a, st, b);
    IdleReads(k, b);
    assert CanPick(k, b, picks(b));
    FixedSelected(k, picks, out, watch, b, ViewOf(st.store, Always(k, b)));
    assert mine == IDLE || mine == picks(b);
    forall w | Demands(k, These(Only(mine)), b, w)
      ensures w in st.results
    {
      var p :| ReadBy(k, These(Only(mine)), b, p) && w in WritersOf(k.writers, p);
      assert ReadBy(k, These(picks), b, p);
      assert Demands(k, These(picks), b, w);
    }
  }
}
