/**
 Removal of the reserved properties of a result: a depth-first walk that removes
 the key from every object it meets and never visits a cell twice. What it does to
 a heap, shared or cyclic, is determined by which cells can be reached from the
 roots without passing through a reserved property.
 */
module VariableCleaner {
  import opened Wrappers
  import opened ValueHeap

  /** The reserved properties: there is one. */
  const RESERVED: set<string> := {"$nodes"}

  function ScrubCell(c: Cell): Cell {
    match c
    case ArrayCell(_) => c
    case ObjectCell(entries) => ObjectCell(entries - RESERVED)
  }

  /** The heap with the reserved properties removed from the given cells. */
  function Scrub(cells: Cells, visited: set<nat>): Cells {
    map a | a in cells :: if a in visited then ScrubCell(cells[a]) else cells[a]
  }

  /** The cells that a cell leads to other than by a reserved property. */
  function NextOf(c: Cell): set<nat> {
    match c
    case ArrayCell(items) => Addresses(items)
    case ObjectCell(entries) => EntryAddresses(entries - RESERVED)
  }

  function Next(cells: Cells, a: nat): set<nat> {
    if a in cells then NextOf(cells[a]) else {}
  }

  /** All cells that a cell leads to, reserved properties included. */
  function AnyNext(cells: Cells, a: nat): set<nat> {
    if a !in cells then {}
    else
      match cells[a]
      case ArrayCell(items) => Addresses(items)
      case ObjectCell(entries) => EntryAddresses(entries)
  }

  ghost predicate Closed(cells: Cells, s: set<nat>) {
    forall a :: a in s ==> Next(cells, a) <= s
  }

  /** A path of unreserved references from one of the roots. */
  ghost predicate IsPath(cells: Cells, roots: set<nat>, p: seq<nat>) {
    && |p| > 0 && p[0] in roots
    && forall i :: 0 <= i < |p| - 1 ==> p[i + 1] in Next(cells, p[i])
  }

  ghost predicate Reaches(cells: Cells, roots: set<nat>, a: nat) {
    exists p :: IsPath(cells, roots, p) && p[|p| - 1] == a
  }

  ghost function Reachable(cells: Cells, roots: set<nat>): set<nat> {
    set a | a in cells && Reaches(cells, roots, a)
  }

  lemma ScrubCellTwice(c: Cell)
    ensures ScrubCell(ScrubCell(c)) == ScrubCell(c)
    ensures NextOf(ScrubCell(c)) == NextOf(c)
  {
    if c.ObjectCell? {
      assert c.entries - RESERVED - RESERVED == c.entries - RESERVED;
    }
  }

  lemma ScrubTwice(cells: Cells, s: set<nat>, t: set<nat>)
    ensures Scrub(Scrub(cells, s), t) == Scrub(cells, s + t)
  {
    forall a | a in cells {
      ScrubCellTwice(cells[a]);
    }
  }

  lemma NextOfScrub(cells: Cells, s: set<nat>, a: nat)
    ensures Next(Scrub(cells, s), a) == Next(cells, a)
  {
    if a in cells {
      ScrubCellTwice(cells[a]);
    }
  }

  lemma ClosedOfScrub(cells: Cells, s: set<nat>, t: set<nat>)
    ensures Closed(Scrub(cells, s), t) <==> Closed(cells, t)
  {
    forall a
      ensures Next(Scrub(cells, s), a) == Next(cells, a)
    {
      NextOfScrub(cells, s, a);
    }
  }

  lemma ScrubFits(cells: Cells, s: set<nat>)
    requires WellFormed(cells)
    ensures WellFormed(Scrub(cells, s))
  {
  }

  // ---------------------------------------------------------------- what a part of the walk does

  /**
   From cells0 and visited0 to cells and visited, having been asked to visit the
   roots: exactly the newly visited cells are scrubbed, whatever they lead to is
   visited too, and nothing is visited without need.
   */
  ghost predicate Walked(cells0: Cells, visited0: set<nat>, cells: Cells, visited: set<nat>, roots: set<nat>) {
    && visited0 + roots <= visited <= visited0 + cells0.Keys
    && cells == Scrub(cells0, visited - visited0) && WellFormed(cells)
    && (forall a :: a in visited - visited0 ==> Next(cells0, a) <= visited)
    && (forall s :: Closed(cells0, s) && roots <= s ==> visited <= visited0 + s)
  }

  lemma WalkedThen(cells0: Cells, visited0: set<nat>, cells1: Cells, visited1: set<nat>, roots1: set<nat>,
      cells2: Cells, visited2: set<nat>, roots2: set<nat>)
    requires Walked(cells0, visited0, cells1, visited1, roots1)
    requires Walked(cells1, visited1, cells2, visited2, roots2)
    ensures Walked(cells0, visited0, cells2, visited2, roots1 + roots2)
  {
    ScrubTwice(cells0, visited1 - visited0, visited2 - visited1);
    assert (visited1 - visited0) + (visited2 - visited1) == visited2 - visited0;
    forall a | a in visited2 - visited0
      ensures Next(cells0, a) <= visited2
    {
      NextOfScrub(cells0, visited1 - visited0, a);
    }
    forall s | Closed(cells0, s) && roots1 + roots2 <= s
      ensures visited2 <= visited0 + s
    {
      ClosedOfScrub(cells0, visited1 - visited0, s);
      assert visited1 <= visited0 + s && visited2 <= visited1 + s;
    }
  }

  lemma WalkedNowhere(cells: Cells, visited: set<nat>)
    requires WellFormed(cells)
    ensures Walked(cells, visited, cells, visited, {})
  {
    assert Scrub(cells, visited - visited) == cells;
  }

  lemma WalkedItem(cells0: Cells, visited0: set<nat>, cells1: Cells, visited1: set<nat>, cells2: Cells,
      visited2: set<nat>, items: seq<Value>, i: nat)
    requires i < |items| && Walked(cells0, visited0, cells1, visited1, Addresses(items[..i]))
    requires Walked(cells1, visited1, cells2, visited2, Address(items[i]))
    ensures Walked(cells0, visited0, cells2, visited2, Addresses(items[..i + 1]))
  {
    WalkedThen(cells0, visited0, cells1, visited1, Addresses(items[..i]), cells2, visited2, Address(items[i]));
    assert items[..i + 1] == items[..i] + [items[i]];
    assert Addresses(items[..i + 1]) == Addresses(items[..i]) + Address(items[i]);
  }

  lemma OneMoreEntry(done: map<string, Value>, k: string, v: Value)
    requires k !in done
    ensures EntryAddresses(done[k := v]) == EntryAddresses(done) + Address(v)
  {
    forall a | a in EntryAddresses(done) + Address(v)
      ensures a in EntryAddresses(done[k := v])
    {
      if a in EntryAddresses(done) {
        var j :| j in done && Shared(done[j]) && done[j].addr == a;
        assert done[k := v][j] == done[j];
      } else {
        assert done[k := v][k] == v;
      }
    }
  }

  lemma WalkedEntry(cells0: Cells, visited0: set<nat>, cells1: Cells, visited1: set<nat>, cells2: Cells,
      visited2: set<nat>, entries: map<string, Value>, rest: set<string>, k: string)
    requires k in rest && k in entries
    requires Walked(cells0, visited0, cells1, visited1, EntryAddresses(entries - rest))
    requires Walked(cells1, visited1, cells2, visited2, Address(entries[k]))
    ensures Walked(cells0, visited0, cells2, visited2, EntryAddresses(entries - (rest - {k})))
  {
    WalkedThen(cells0, visited0, cells1, visited1, EntryAddresses(entries - rest), cells2, visited2,
               Address(entries[k]));
    assert entries - (rest - {k}) == (entries - rest)[k := entries[k]];
    OneMoreEntry(entries - rest, k, entries[k]);
  }

  lemma FitsAfter(cells0: Cells, visited0: set<nat>, cells: Cells, visited: set<nat>, roots: set<nat>, v: Value)
    requires Walked(cells0, visited0, cells, visited, roots) && Fits(cells0, v)
    ensures WellFormed(cells) && Fits(cells, v)
  {
  }

  /** Fewer cells are left to visit. */
  lemma FewerLeft(cells0: Cells, visited0: set<nat>, cells: Cells, visited: set<nat>, roots: set<nat>)
    requires Walked(cells0, visited0, cells, visited, roots)
    ensures |cells.Keys - visited| <= |cells0.Keys - visited0|
  {
    SubsetSize(cells.Keys - visited, cells0.Keys - visited0);
  }

  lemma OneLess(cells: Cells, visited: set<nat>, a: nat)
    requires a in cells && a !in visited
    ensures |Scrub(cells, {a}).Keys - (visited + {a})| < |cells.Keys - visited|
  {
    assert cells.Keys - visited == (Scrub(cells, {a}).Keys - (visited + {a})) + {a};
  }

  /** A cell is done when it has been marked, scrubbed, and everything it leads to visited. */
  lemma WalkedCell(cells0: Cells, visited0: set<nat>, a: nat, cells: Cells, visited: set<nat>)
    requires a in cells0 && a !in visited0
    requires Walked(Scrub(cells0, {a}), visited0 + {a}, cells, visited, Next(cells0, a))
    ensures Walked(cells0, visited0, cells, visited, {a})
  {
    ScrubTwice(cells0, {a}, visited - (visited0 + {a}));
    assert {a} + (visited - (visited0 + {a})) == visited - visited0;
    forall b | b in visited - visited0
      ensures Next(cells0, b) <= visited
    {
      NextOfScrub(cells0, {a}, b);
    }
    forall s | Closed(cells0, s) && {a} <= s
      ensures visited <= visited0 + s
    {
      ClosedOfScrub(cells0, {a}, s);
      assert visited <= visited0 + {a} + s;
    }
  }

  lemma {:induction false} PathStaysInside(cells: Cells, roots: set<nat>, s: set<nat>, p: seq<nat>)
    requires Closed(cells, s) && roots <= s && IsPath(cells, roots, p)
    ensures p[|p| - 1] in s
  {
    if |p| > 1 {
      PathStaysInside(cells, roots, s, p[..|p| - 1]);
      assert p[|p| - 1] in Next(cells, p[|p| - 2]);
    }
  }

  lemma ReachableIsClosed(cells: Cells, roots: set<nat>)
    requires WellFormed(cells) && roots <= cells.Keys
    ensures Closed(cells, Reachable(cells, roots)) && roots <= Reachable(cells, roots)
  {
    forall a, b | a in Reachable(cells, roots) && b in Next(cells, a)
      ensures b in Reachable(cells, roots)
    {
      var p :| IsPath(cells, roots, p) && p[|p| - 1] == a;
      assert IsPath(cells, roots, p + [b]);
      assert (p + [b])[|p + [b]| - 1] == b;
      assert b in cells by {
        assert CellFits(cells, cells[a]);
      }
    }
    forall r | r in roots
      ensures r in Reachable(cells, roots)
    {
      assert IsPath(cells, roots, [r]);
      assert [r][|[r]| - 1] == r;
    }
  }

  /** A walk that starts with nothing visited visits what can be reached. */
  lemma WalkedIsReachable(cells0: Cells, cells: Cells, visited: set<nat>, roots: set<nat>)
    requires WellFormed(cells0) && roots <= cells0.Keys && Walked(cells0, {}, cells, visited, roots)
    ensures visited == Reachable(cells0, roots)
  {
    ReachableIsClosed(cells0, roots);
    assert Closed(cells0, visited);
    forall a | a in Reachable(cells0, roots)
      ensures a in visited
    {
      var p :| IsPath(cells0, roots, p) && p[|p| - 1] == a;
      PathStaysInside(cells0, roots, visited, p);
    }
  }

  // ---------------------------------------------------------------- the walk

  class Cleaner {
    var visited: set<nat>

    constructor ()
      ensures visited == {}
    {
      visited := {};
    }

    /** Visits one value. */
    method Clean(h: Heap, v: Value)
      requires WellFormed(h.cells) && Fits(h.cells, v)
      modifies this, h
      ensures Walked(old(h.cells), old(visited), h.cells, visited, Address(v))
      decreases |h.cells.Keys - visited|, 1
    {
      match v
      case Null | Bool(_) | Number(_) | String(_) | Dynamic(_) =>
        WalkedNowhere(h.cells, visited);
      case Array(a) =>
        CleanCell(h, a);
      case Object(a) =>
        CleanCell(h, a);
    }

    /** Visits one cell unless it has been visited. */
    method CleanCell(h: Heap, a: nat)
      requires WellFormed(h.cells) && a in h.cells
      modifies this, h
      ensures Walked(old(h.cells), old(visited), h.cells, visited, {a})
      decreases |h.cells.Keys - visited|, 0
    {
      if a !in visited {
        Mark(h, a);
        CleanContents(h, a);
        WalkedCell(old(h.cells), old(visited), a, h.cells, visited);
      } else {
        WalkedNowhere(h.cells, visited);
      }
    }

    method CleanContents(h: Heap, a: nat)
      requires WellFormed(h.cells) && a in h.cells
      modifies this, h
      ensures Walked(old(h.cells), old(visited), h.cells, visited, AnyNext(old(h.cells), a))
      decreases |h.cells.Keys - visited|, 3
    {
      match h.cells[a]
      case ArrayCell(items) => CleanItems(h, items);
      case ObjectCell(entries) => CleanEntries(h, entries);
    }

    /** Marks a cell as visited and removes its reserved properties. */
    method Mark(h: Heap, a: nat)
      requires WellFormed(h.cells) && a in h.cells && a !in visited
      modifies this, h
      ensures h.cells == Scrub(old(h.cells), {a}) && visited == old(visited) + {a}
      ensures WellFormed(h.cells) && AnyNext(h.cells, a) == Next(old(h.cells), a)
      ensures |h.cells.Keys - visited| < |old(h.cells).Keys - old(visited)|
    {
      OneLess(h.cells, visited, a);
      ScrubFits(h.cells, {a});
      visited := visited + {a};
      h.cells := h.cells[a := ScrubCell(h.cells[a])];
      assert h.cells == Scrub(old(h.cells), {a});
    }

    method CleanItems(h: Heap, items: seq<Value>)
      requires WellFormed(h.cells) && CellFits(h.cells, ArrayCell(items))
      modifies this, h
      ensures Walked(old(h.cells), old(visited), h.cells, visited, Addresses(items))
      decreases |h.cells.Keys - visited|, 2
    {
      WalkedNowhere(h.cells, visited);
      var i := 0;
      while i < |items|
        invariant 0 <= i <= |items|
        invariant Walked(old(h.cells), old(visited), h.cells, visited, Addresses(items[..i]))
      {
        ghost var cells1, visited1 := h.cells, visited;
        FewerLeft(old(h.cells), old(visited), cells1, visited1, Addresses(items[..i]));
        FitsAfter(old(h.cells), old(visited), cells1, visited1, Addresses(items[..i]), items[i]);
        Clean(h, items[i]);
        WalkedItem(old(h.cells), old(visited), cells1, visited1, h.cells, visited, items, i);
        i := i + 1;
      }
      assert items[..i] == items;
    }

    /** Visits the values of an object, in any order. */
    method CleanEntries(h: Heap, entries: map<string, Value>)
      requires WellFormed(h.cells) && CellFits(h.cells, ObjectCell(entries))
      modifies this, h
      ensures Walked(old(h.cells), old(visited), h.cells, visited, EntryAddresses(entries))
      decreases |h.cells.Keys - visited|, 2
    {
      WalkedNowhere(h.cells, visited);
      var rest := entries.Keys;
      assert EntryAddresses(entries - rest) == {};
      while rest != {}
        invariant rest <= entries.Keys
        invariant Walked(old(h.cells), old(visited), h.cells, visited, EntryAddresses(entries - rest))
      {
        var k :| k in rest;
        ghost var cells1, visited1 := h.cells, visited;
        FewerLeft(old(h.cells), old(visited), cells1, visited1, EntryAddresses(entries - rest));
        FitsAfter(old(h.cells), old(visited), cells1, visited1, EntryAddresses(entries - rest), entries[k]);
        Clean(h, entries[k]);
        WalkedEntry(old(h.cells), old(visited), cells1, visited1, h.cells, visited, entries, rest, k);
        rest := rest - {k};
      }
      assert entries - {} == entries;
    }
  }

  // ---------------------------------------------------------------- what is left at the end of a path

  /** The path leads from v to cell a, and not through a reserved property. */
  predicate Reaching(cells: Cells, v: Value, path: seq<Segment>, a: nat)
    requires WellFormed(cells) && Fits(cells, v)
  {
    Key("$nodes") !in path && Follow(cells, v, path).Some? && a in Address(Follow(cells, v, path).value)
  }

  /** Cell a is at the end of a path from one of the roots without a reserved property. */
  ghost predicate IsFound(cells: Cells, roots: seq<Value>, a: nat)
    requires WellFormed(cells) && CellFits(cells, ArrayCell(roots))
  {
    exists i, path :: 0 <= i < |roots| && Reaching(cells, roots[i], path, a)
  }

  /** One step without a reserved property leads to what the cell leads to. */
  lemma StepInNext(cells: Cells, v: Value, step: Segment)
    requires WellFormed(cells) && Fits(cells, v) && step != Key("$nodes") && Step(cells, v, step).Some?
    ensures Shared(v) && Address(Step(cells, v, step).value) <= Next(cells, v.addr)
  {
    var next := Step(cells, v, step).value;
    if step.Index? {
      assert cells[v.addr].items[step.i] == next;
    } else {
      assert step.name in cells[v.addr].entries - RESERVED;
    }
  }

  lemma NextByStep(cells: Cells, v: Value, b: nat) returns (step: Segment)
    requires WellFormed(cells) && Fits(cells, v) && Shared(v) && b in Next(cells, v.addr)
    ensures step != Key("$nodes") && Step(cells, v, step).Some? && b in Address(Step(cells, v, step).value)
  {
    match cells[v.addr]
    case ArrayCell(items) =>
      var i :| 0 <= i < |items| && Shared(items[i]) && items[i].addr == b;
      step := Index(i);
    case ObjectCell(entries) =>
      var k :| k in entries - RESERVED && Shared(entries[k]) && entries[k].addr == b;
      step := Key(k);
  }

  /** Following a path without reserved properties stays in a closed set. */
  lemma {:induction false} PathInClosed(cells: Cells, v: Value, path: seq<Segment>, s: set<nat>, a: nat)
    requires WellFormed(cells) && Fits(cells, v) && Closed(cells, s) && Address(v) <= s && Reaching(cells, v, path, a)
    ensures a in s
    decreases |path|
  {
    if path != [] {
      StepInNext(cells, v, path[0]);
      PathInClosed(cells, Step(cells, v, path[0]).value, path[1..], s, a);
    }
  }

  lemma {:induction false} FoundByPath(cells: Cells, roots: seq<Value>, p: seq<nat>)
    returns (i: nat, path: seq<Segment>)
    requires WellFormed(cells) && CellFits(cells, ArrayCell(roots)) && IsPath(cells, Addresses(roots), p)
    ensures i < |roots| && Reaching(cells, roots[i], path, p[|p| - 1])
    decreases |p|
  {
    if |p| == 1 {
      i :| i < |roots| && Shared(roots[i]) && roots[i].addr == p[0];
      path := [];
    } else {
      var before := p[..|p| - 1];
      i, path := FoundByPath(cells, roots, before);
      var v := Follow(cells, roots[i], path).value;
      assert p[|p| - 1] in Next(cells, p[|p| - 2]);
      var step := NextByStep(cells, v, p[|p| - 1]);
      FollowOn(cells, roots[i], path, [step]);
      assert [step][1..] == [];
      path := path + [step];
    }
  }

  /** The reachable cells are those at the ends of paths. */
  lemma ReachableByPaths(cells: Cells, roots: seq<Value>, a: nat)
    requires WellFormed(cells) && CellFits(cells, ArrayCell(roots))
    ensures a in Reachable(cells, Addresses(roots)) <==> IsFound(cells, roots, a)
  {
    ReachableIsClosed(cells, Addresses(roots));
    if a in Reachable(cells, Addresses(roots)) {
      var p :| IsPath(cells, Addresses(roots), p) && p[|p| - 1] == a;
      var i, path := FoundByPath(cells, roots, p);
    }
    if i, path :| 0 <= i < |roots| && Reaching(cells, roots[i], path, a) {
      assert Address(roots[i]) <= Addresses(roots);
      PathInClosed(cells, roots[i], path, Reachable(cells, Addresses(roots)), a);
    }
  }

  /** In the cleaned heap a path leads where it led, or nowhere if it takes a reserved property. */
  lemma {:induction false} FollowCleaned(cells: Cells, s: set<nat>, v: Value, path: seq<Segment>)
    requires WellFormed(cells) && WellFormed(Scrub(cells, s)) && Closed(cells, s) && Fits(cells, v) && Address(v) <= s
    ensures Fits(Scrub(cells, s), v)
    ensures Follow(Scrub(cells, s), v, path) == if Key("$nodes") in path then None else Follow(cells, v, path)
    decreases |path|
  {
    if path != [] {
      assert path == [path[0]] + path[1..];
      if path[0] == Key("$nodes") {
        assert Step(Scrub(cells, s), v, path[0]) == None;
      } else {
        assert Step(Scrub(cells, s), v, path[0]) == Step(cells, v, path[0]);
        if Step(cells, v, path[0]).Some? {
          StepInNext(cells, v, path[0]);
          FollowCleaned(cells, s, Step(cells, v, path[0]).value, path[1..]);
        }
      }
    }
  }

  /**
   All roots with one cleaner. From a root every path leads where it led, or nowhere if it
   takes a reserved property; cells that no other path leads to are untouched.
   */
  method CleanAll(h: Heap, roots: seq<Value>)
    requires WellFormed(h.cells) && CellFits(h.cells, ArrayCell(roots))
    modifies h
    ensures h.cells == Scrub(old(h.cells), Reachable(old(h.cells), Addresses(roots)))
    ensures WellFormed(h.cells) && h.cells.Keys == old(h.cells).Keys && CellFits(h.cells, ArrayCell(roots))
    ensures forall i, path :: 0 <= i < |roots| ==>
      Follow(h.cells, roots[i], path) == if Key("$nodes") in path then None else Follow(old(h.cells), roots[i], path)
    ensures forall a :: a in h.cells && !IsFound(old(h.cells), roots, a) ==> h.cells[a] == old(h.cells)[a]
    ensures forall a :: a in h.cells && h.cells[a].ArrayCell? ==> h.cells[a] == old(h.cells)[a]
    ensures forall a :: a in h.cells && h.cells[a].ObjectCell? && IsFound(old(h.cells), roots, a) ==>
      h.cells[a] == ObjectCell(old(h.cells)[a].entries - {"$nodes"})
  {
    var cleaner := new Cleaner();
    cleaner.CleanItems(h, roots);
    WalkedIsReachable(old(h.cells), h.cells, cleaner.visited, Addresses(roots));
    assert cleaner.visited - {} == cleaner.visited;
    ghost var before := old(h.cells);
    ReachableIsClosed(before, Addresses(roots));
    forall i, path | 0 <= i < |roots|
      ensures Follow(h.cells, roots[i], path) == if Key("$nodes") in path then None else Follow(before, roots[i], path)
    {
      assert Address(roots[i]) <= Addresses(roots);
      FollowCleaned(before, cleaner.visited, roots[i], path);
    }
    forall a
      ensures a in cleaner.visited <==> IsFound(before, roots, a)
    {
      ReachableByPaths(before, roots, a);
    }
  }

  // ---------------------------------------------------------------- what that means for a reader of the result

  lemma AnyNextOfScrubbed(cells: Cells, s: set<nat>, a: nat)
    requires a in s
    ensures AnyNext(Scrub(cells, s), a) == Next(cells, a)
  {
  }

  /** A path of references of any kind from one of the roots. */
  ghost predicate IsAnyPath(cells: Cells, roots: set<nat>, p: seq<nat>) {
    && |p| > 0 && p[0] in roots
    && forall i :: 0 <= i < |p| - 1 ==> p[i + 1] in AnyNext(cells, p[i])
  }

  ghost predicate HasReserved(c: Cell) {
    c.ObjectCell? && exists k :: k in c.entries && k in RESERVED
  }

  /** In the cleaned heap no path from a root, whatever properties it follows, meets a reserved property. */
  lemma {:induction false} NothingReservedIsLeft(cells: Cells, roots: set<nat>, p: seq<nat>)
    requires WellFormed(cells) && roots <= cells.Keys
    requires IsAnyPath(Scrub(cells, Reachable(cells, roots)), roots, p)
    ensures p[|p| - 1] in Reachable(cells, roots)
    ensures !HasReserved(Scrub(cells, Reachable(cells, roots))[p[|p| - 1]])
    decreases |p|
  {
    ReachableIsClosed(cells, roots);
    if |p| > 1 {
      var a := p[|p| - 2];
      assert p[..|p| - 1][|p| - 2] == a;
      NothingReservedIsLeft(cells, roots, p[..|p| - 1]);
      assert p[|p| - 1] in AnyNext(Scrub(cells, Reachable(cells, roots)), a);
      AnyNextOfScrubbed(cells, Reachable(cells, roots), a);
    }
  }

  /** Cleaning again, or the same roots in two steps or in another order, changes nothing more. */
  lemma CleaningInSteps(cells: Cells, roots: set<nat>, more: set<nat>)
    requires WellFormed(cells) && roots <= cells.Keys && more <= cells.Keys
    ensures var once := Scrub(cells, Reachable(cells, roots));
      Scrub(once, Reachable(once, more)) == Scrub(cells, Reachable(cells, roots + more))
  {
    var r := Reachable(cells, roots);
    var once := Scrub(cells, r);
    SameReachable(cells, r, more);
    ScrubTwice(cells, r, Reachable(cells, more));
    ReachableOfBoth(cells, roots, more);
  }

  lemma SameReachable(cells: Cells, s: set<nat>, roots: set<nat>)
    ensures Reachable(Scrub(cells, s), roots) == Reachable(cells, roots)
  {
    forall p
      ensures IsPath(Scrub(cells, s), roots, p) <==> IsPath(cells, roots, p)
    {
      forall i | 0 <= i < |p|
        ensures Next(Scrub(cells, s), p[i]) == Next(cells, p[i])
      {
        NextOfScrub(cells, s, p[i]);
      }
    }
    forall a
      ensures Reaches(Scrub(cells, s), roots, a) <==> Reaches(cells, roots, a)
    {
    }
  }

  lemma ReachableOfBoth(cells: Cells, roots: set<nat>, more: set<nat>)
    ensures Reachable(cells, roots + more) == Reachable(cells, roots) + Reachable(cells, more)
  {
    forall p
      ensures IsPath(cells, roots + more, p) <==> IsPath(cells, roots, p) || IsPath(cells, more, p)
    {
    }
    forall a
      ensures Reaches(cells, roots + more, a) <==> Reaches(cells, roots, a) || Reaches(cells, more, a)
    {
    }
  }
}
