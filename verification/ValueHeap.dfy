/**
 Values whose arrays and objects are shared cells of a heap. Cells may be shared
 and may form cycles.
 */
module ValueHeap {
  import opened Wrappers

  /** Dynamic values are foreign: only their identity is known. */
  datatype Value =
    | Null
    | Bool(b: bool)
    | Number(n: real)
    | String(s: string)
    | Dynamic(id: nat)
    | Array(addr: nat)
    | Object(addr: nat)

  datatype Cell = ArrayCell(items: seq<Value>) | ObjectCell(entries: map<string, Value>)

  type Cells = map<nat, Cell>

  predicate Shared(v: Value) {
    v.Array? || v.Object?
  }

  function Address(v: Value): set<nat> {
    if Shared(v) then {v.addr} else {}
  }

  function Addresses(vs: seq<Value>): set<nat> {
    set i | 0 <= i < |vs| && Shared(vs[i]) :: vs[i].addr
  }

  function EntryAddresses(entries: map<string, Value>): set<nat> {
    set k | k in entries && Shared(entries[k]) :: entries[k].addr
  }

  /** A reference leads to a cell of its kind. */
  predicate Fits(cells: Cells, v: Value) {
    Shared(v) ==> v.addr in cells && (v.Array? <==> cells[v.addr].ArrayCell?)
  }

  predicate CellFits(cells: Cells, c: Cell) {
    match c
    case ArrayCell(items) => forall i :: 0 <= i < |items| ==> Fits(cells, items[i])
    case ObjectCell(entries) => forall k :: k in entries ==> Fits(cells, entries[k])
  }

  predicate WellFormed(cells: Cells) {
    forall a :: a in cells ==> CellFits(cells, cells[a])
  }

  // ---------------------------------------------------------------- places in a value

  /** One step into a value: an entry of an object or an item of an array. */
  datatype Segment = Key(name: string) | Index(i: nat)

  function Step(cells: Cells, v: Value, step: Segment): (r: Option<Value>)
    requires WellFormed(cells) && Fits(cells, v)
    ensures r.Some? ==> Fits(cells, r.value)
  {
    match step
    case Key(name) =>
      if v.Object? && name in cells[v.addr].entries then
        assert CellFits(cells, cells[v.addr]);
        Some(cells[v.addr].entries[name])
      else None
    case Index(i) =>
      if v.Array? && i < |cells[v.addr].items| then
        assert CellFits(cells, cells[v.addr]);
        Some(cells[v.addr].items[i])
      else None
  }

  /** What is found at the end of a path, if it leads anywhere. */
  function Follow(cells: Cells, v: Value, path: seq<Segment>): (r: Option<Value>)
    requires WellFormed(cells) && Fits(cells, v)
    ensures r.Some? ==> Fits(cells, r.value)
    decreases |path|
  {
    if path == [] then Some(v)
    else
      match Step(cells, v, path[0])
      case None => None
      case Some(next) => Follow(cells, next, path[1..])
  }

  lemma {:induction false} FollowOn(cells: Cells, v: Value, path: seq<Segment>, more: seq<Segment>)
    requires WellFormed(cells) && Fits(cells, v)
    ensures Follow(cells, v, path + more) == match Follow(cells, v, path) {
      case None => None
      case Some(next) => Follow(cells, next, more)
    }
    decreases |path|
  {
    if path == [] {
      assert path + more == more;
    } else {
      assert (path + more)[1..] == path[1..] + more;
      if Step(cells, v, path[0]).Some? {
        FollowOn(cells, Step(cells, v, path[0]).value, path[1..], more);
      }
    }
  }

  /** The memory that values point into. */
  class Heap {
    var cells: Cells

    constructor (cells: Cells)
      ensures this.cells == cells
    {
      this.cells := cells;
    }
  }
}
