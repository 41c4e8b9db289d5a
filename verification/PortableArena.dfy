/**
 The arena in which a result crosses to JavaScript: a list of nodes whose children
 are indices of earlier nodes. Encoding visits every shared cell once, remembering
 its index by address; decoding builds every node once, remembering what it built.
 */
module PortableArena {
  import opened Wrappers
  import opened ValueHeap

  /** Decimal to double, and dynamic value to JSON. */
  datatype Conversions<!D, !J> = Conversions(double: real -> D, json: nat -> J)

  /** A value without sharing: what a reader of the result sees. */
  datatype Plain<+D, +J> =
    | PlainNull
    | PlainBool(b: bool)
    | PlainNum(n: D)
    | PlainStr(s: string)
    | PlainArr(items: seq<Plain<D, J>>)
    | PlainObj(entries: map<string, Plain<D, J>>)
    | PlainJson(j: J)

  datatype PNode<+D, +J> =
    | NullNode
    | BoolNode(b: bool)
    | NumNode(n: D)
    | StrNode(s: string)
    | ArrNode(children: seq<nat>)
    | ObjNode(fields: seq<(string, nat)>)
    | JsonNode(j: J)

  /** Node indices are 32 bits wide: an arena has 0x1_0000_0000 of them. */
  const LIMIT: nat := 0x1_0000_0000

  // ---------------------------------------------------------------- the meaning of a value

  /** rank decreases along every reference, so that nothing is part of itself. */
  ghost predicate RankedCell(c: Cell, rank: nat -> nat, r: nat) {
    match c
    case ArrayCell(items) => forall i :: 0 <= i < |items| ==> Height(rank, items[i]) <= r
    case ObjectCell(entries) => forall k :: k in entries ==> Height(rank, entries[k]) <= r
  }

  ghost predicate Ranked(cells: Cells, rank: nat -> nat) {
    WellFormed(cells) && forall a :: a in cells ==> CellFits(cells, cells[a]) && RankedCell(cells[a], rank, rank(a))
  }

  ghost function Height(rank: nat -> nat, v: Value): nat {
    if Shared(v) then rank(v.addr) + 1 else 0
  }

  ghost function MaxHeight(rank: nat -> nat, items: seq<Value>): (r: nat)
    ensures forall i :: 0 <= i < |items| ==> Height(rank, items[i]) <= r
  {
    if items == [] then 0
    else
      var h := MaxHeight(rank, items[..|items| - 1]);
      if Height(rank, items[|items| - 1]) <= h then h else Height(rank, items[|items| - 1])
  }

  lemma {:induction false} MaxHeightAtMost(rank: nat -> nat, items: seq<Value>, r: nat)
    requires forall i :: 0 <= i < |items| ==> Height(rank, items[i]) <= r
    ensures MaxHeight(rank, items) <= r
  {
    if items != [] {
      MaxHeightAtMost(rank, items[..|items| - 1], r);
    }
  }

  /** A value with all references followed. */
  ghost function Unfold<D, J>(c: Conversions<D, J>, cells: Cells, rank: nat -> nat, v: Value): Plain<D, J>
    requires Ranked(cells, rank) && Fits(cells, v)
    decreases Height(rank, v), 0
  {
    match v
    case Null => PlainNull
    case Bool(b) => PlainBool(b)
    case Number(n) => PlainNum(c.double(n))
    case String(s) => PlainStr(s)
    case Dynamic(d) => PlainJson(c.json(d))
    case Array(a) =>
      MaxHeightAtMost(rank, cells[a].items, rank(a));
      PlainArr(UnfoldItems(c, cells, rank, cells[a].items))
    case Object(a) => PlainObj(UnfoldEntries(c, cells, rank, cells[a].entries, rank(a)))
  }

  ghost function UnfoldItems<D, J>(c: Conversions<D, J>, cells: Cells, rank: nat -> nat,
      items: seq<Value>): seq<Plain<D, J>>
    requires Ranked(cells, rank) && CellFits(cells, ArrayCell(items))
    decreases MaxHeight(rank, items), |items| + 1
  {
    if items == [] then []
    else UnfoldItems(c, cells, rank, items[..|items| - 1]) + [Unfold(c, cells, rank, items[|items| - 1])]
  }

  ghost function UnfoldEntries<D, J>(c: Conversions<D, J>, cells: Cells, rank: nat -> nat, entries: map<string,
      Value>, r: nat)
    : map<string, Plain<D, J>>
    requires Ranked(cells, rank) && CellFits(cells, ObjectCell(entries)) && RankedCell(ObjectCell(entries), rank, r)
    decreases r, 1
  {
    map k | k in entries :: Unfold(c, cells, rank, entries[k])
  }

  lemma {:induction false} UnfoldItemsAt<D, J>(c: Conversions<D, J>, cells: Cells, rank: nat -> nat, items: seq<Value>)
    requires Ranked(cells, rank) && CellFits(cells, ArrayCell(items))
    ensures |UnfoldItems(c, cells, rank, items)| == |items|
    ensures forall i :: 0 <= i < |items| ==>
      UnfoldItems(c, cells, rank, items)[i] == Unfold(c, cells, rank, items[i])
    decreases |items|
  {
    if items != [] {
      UnfoldItemsAt(c, cells, rank, items[..|items| - 1]);
    }
  }

  function StepInto<D, J>(p: Plain<D, J>, step: Segment): Option<Plain<D, J>> {
    match (p, step)
    case (PlainObj(entries), Key(name)) => if name in entries then Some(entries[name]) else None
    case (PlainArr(items), Index(i)) => if i < |items| then Some(items[i]) else None
    case _ => None
  }

  /** What is found at the end of a path, if it leads anywhere. */
  function FollowInto<D, J>(p: Plain<D, J>, path: seq<Segment>): Option<Plain<D, J>>
    decreases |path|
  {
    if path == [] then Some(p)
    else
      match StepInto(p, path[0])
      case None => None
      case Some(next) => FollowInto(next, path[1..])
  }

  /** A plain value looks like one on the heap: the same leaf, as many items, or the same keys. */
  predicate LooksLike<D(==), J(==)>(c: Conversions<D, J>, cells: Cells, p: Plain<D, J>, v: Value)
    requires Fits(cells, v)
  {
    match v
    case Null => p == PlainNull
    case Bool(b) => p == PlainBool(b)
    case Number(n) => p == PlainNum(c.double(n))
    case String(s) => p == PlainStr(s)
    case Dynamic(d) => p == PlainJson(c.json(d))
    case Array(a) => p.PlainArr? && |p.items| == |cells[a].items|
    case Object(a) => p.PlainObj? && p.entries.Keys == cells[a].entries.Keys
  }

  /** Along every path the two lead equally far, and what they find looks alike. */
  ghost predicate AlikeAlong<D, J>(c: Conversions<D, J>, cells: Cells, p: Plain<D, J>, v: Value, path: seq<Segment>)
    requires WellFormed(cells) && Fits(cells, v)
  {
    match Follow(cells, v, path)
    case None => FollowInto(p, path).None?
    case Some(found) => FollowInto(p, path).Some? && LooksLike(c, cells, FollowInto(p, path).value, found)
  }

  /** A value unfolded is alike along every path, shared or not. */
  lemma {:induction false} UnfoldAlike<D, J>(c: Conversions<D, J>, cells: Cells, rank: nat -> nat, v: Value,
      path: seq<Segment>)
    requires Ranked(cells, rank) && Fits(cells, v)
    ensures AlikeAlong(c, cells, Unfold(c, cells, rank, v), v, path)
    decreases |path|
  {
    if v.Array? {
      UnfoldItemsAt(c, cells, rank, cells[v.addr].items);
    }
    if path != [] && Step(cells, v, path[0]).Some? {
      var next := Step(cells, v, path[0]).value;
      assert StepInto(Unfold(c, cells, rank, v), path[0]) == Some(Unfold(c, cells, rank, next));
      UnfoldAlike(c, cells, rank, next, path[1..]);
    }
  }

  // ---------------------------------------------------------------- the meaning of a node

  /** One more than the largest child index. */
  function Top(children: seq<nat>): (r: nat)
    ensures forall i :: 0 <= i < |children| ==> children[i] < r
  {
    if children == [] then 0
    else
      var r := Top(children[..|children| - 1]);
      if children[|children| - 1] < r then r else children[|children| - 1] + 1
  }

  function TopOfFields(fields: seq<(string, nat)>): (r: nat)
    ensures forall i :: 0 <= i < |fields| ==> fields[i].1 < r
  {
    if fields == [] then 0
    else
      var r := TopOfFields(fields[..|fields| - 1]);
      if fields[|fields| - 1].1 < r then r else fields[|fields| - 1].1 + 1
  }

  function TopOfNode<D, J>(node: PNode<D, J>): nat {
    match node
    case ArrNode(children) => Top(children)
    case ObjNode(fields) => TopOfFields(fields)
    case _ => 0
  }

  /** Children come before their parents. */
  ghost predicate Descending<D, J>(nodes: seq<PNode<D, J>>) {
    forall i :: 0 <= i < |nodes| ==> TopOfNode(nodes[i]) <= i
  }

  /** Plain recursive decoding. */
  ghost function Decode<D, J>(nodes: seq<PNode<D, J>>, id: nat): Plain<D, J>
    requires Descending(nodes) && id < |nodes|
    decreases id + 1, 0
  {
    DecodeNode(nodes, nodes[id])
  }

  ghost function DecodeNode<D, J>(nodes: seq<PNode<D, J>>, node: PNode<D, J>): Plain<D, J>
    requires Descending(nodes) && TopOfNode(node) <= |nodes|
    decreases TopOfNode(node), 2
  {
    match node
    case NullNode => PlainNull
    case BoolNode(b) => PlainBool(b)
    case NumNode(n) => PlainNum(n)
    case StrNode(s) => PlainStr(s)
    case ArrNode(children) => PlainArr(DecodeItems(nodes, children))
    case ObjNode(fields) => PlainObj(DecodeFields(nodes, fields))
    case JsonNode(j) => PlainJson(j)
  }

  ghost function DecodeItems<D, J>(nodes: seq<PNode<D, J>>, children: seq<nat>): seq<Plain<D, J>>
    requires Descending(nodes) && Top(children) <= |nodes|
    decreases Top(children), 1, |children|
  {
    if children == [] then []
    else DecodeItems(nodes, children[..|children| - 1]) + [Decode(nodes, children[|children| - 1])]
  }

  /** A later field replaces an earlier one of the same name. */
  ghost function DecodeFields<D, J>(nodes: seq<PNode<D, J>>, fields: seq<(string, nat)>): map<string, Plain<D, J>>
    requires Descending(nodes) && TopOfFields(fields) <= |nodes|
    decreases TopOfFields(fields), 1, |fields|
  {
    if fields == [] then map[]
    else
      var last := fields[|fields| - 1];
      DecodeFields(nodes, fields[..|fields| - 1])[last.0 := Decode(nodes, last.1)]
  }

  /** Adding nodes does not change what the earlier ones mean. */
  lemma {:induction false} DecodeLater<D, J>(nodes: seq<PNode<D, J>>, nodes': seq<PNode<D, J>>, id: nat)
    requires Descending(nodes) && Descending(nodes') && nodes <= nodes' && id < |nodes|
    ensures Decode(nodes, id) == Decode(nodes', id)
    decreases id + 1, 0
  {
    DecodeNodeLater(nodes, nodes', nodes[id]);
  }

  lemma {:induction false} DecodeNodeLater<D, J>(nodes: seq<PNode<D, J>>, nodes': seq<PNode<D, J>>, node: PNode<D, J>)
    requires Descending(nodes) && Descending(nodes') && nodes <= nodes' && TopOfNode(node) <= |nodes|
    ensures DecodeNode(nodes, node) == DecodeNode(nodes', node)
    decreases TopOfNode(node), 2
  {
    match node
    case ArrNode(children) => DecodeItemsLater(nodes, nodes', children);
    case ObjNode(fields) => DecodeFieldsLater(nodes, nodes', fields);
    case _ =>
  }

  lemma {:induction false} DecodeItemsLater<D, J>(nodes: seq<PNode<D, J>>, nodes': seq<PNode<D, J>>, children: seq<nat>)
    requires Descending(nodes) && Descending(nodes') && nodes <= nodes' && Top(children) <= |nodes|
    ensures DecodeItems(nodes, children) == DecodeItems(nodes', children)
    decreases Top(children), 1, |children|
  {
    if children != [] {
      DecodeItemsLater(nodes, nodes', children[..|children| - 1]);
      DecodeLater(nodes, nodes', children[|children| - 1]);
    }
  }

  lemma {:induction false} DecodeFieldsLater<D, J>(nodes: seq<PNode<D, J>>, nodes': seq<PNode<D, J>>,
      fields: seq<(string, nat)>)
    requires Descending(nodes) && Descending(nodes') && nodes <= nodes' && TopOfFields(fields) <= |nodes|
    ensures DecodeFields(nodes, fields) == DecodeFields(nodes', fields)
    decreases TopOfFields(fields), 1, |fields|
  {
    if fields != [] {
      DecodeFieldsLater(nodes, nodes', fields[..|fields| - 1]);
      DecodeLater(nodes, nodes', fields[|fields| - 1].1);
    }
  }

  // ---------------------------------------------------------------- the encoder

  predicate Composite<D, J>(node: PNode<D, J>) {
    node.ArrNode? || node.ObjNode?
  }

  function RefTo(cells: Cells, a: nat): Value
    requires a in cells
  {
    if cells[a].ArrayCell? then Array(a) else Object(a)
  }

  /** Node id stands for the value. */
  ghost predicate Encodes<D, J>(c: Conversions<D, J>, cells: Cells, rank: nat -> nat, nodes: seq<PNode<D, J>>,
      id: nat, v: Value) {
    && Ranked(cells, rank) && Fits(cells, v) && Descending(nodes) && id < |nodes|
    && Decode(nodes, id) == Unfold(c, cells, rank, v)
  }

  /** Node i belongs to some remembered cell. */
  ghost predicate Owned(ids: map<nat, nat>, i: nat) {
    exists a :: a in ids && ids[a] == i
  }

  /** Every remembered cell has a node of its own, and every composite node belongs to a remembered cell. */
  ghost predicate Faithful<D, J>(c: Conversions<D, J>, cells: Cells, rank: nat -> nat, nodes: seq<PNode<D, J>>,
      ids: map<nat, nat>) {
    && Descending(nodes) && ids.Keys <= cells.Keys
    && (forall a :: a in ids ==> Encodes(c, cells, rank, nodes, ids[a], RefTo(cells, a)))
    && (forall a, b :: a in ids && b in ids && ids[a] == ids[b] ==> a == b)
    && (forall i :: 0 <= i < |nodes| && Composite(nodes[i]) ==> Owned(ids, i))
  }

  /** As long as indices do not wrap around. */
  ghost predicate Sound<D, J>(c: Conversions<D, J>, cells: Cells, rank: nat -> nat, nodes: seq<PNode<D, J>>,
      ids: map<nat, nat>) {
    |nodes| <= LIMIT ==> Faithful(c, cells, rank, nodes, ids)
  }

  /** The arena and the memo only grow, by cells of rank below the bound. */
  ghost predicate Grown<D, J>(nodes: seq<PNode<D, J>>, ids: map<nat, nat>, nodes': seq<PNode<D, J>>, ids': map<nat,
      nat>, rank: nat -> nat, bound: nat) {
    && nodes <= nodes'
    && (forall a :: a in ids ==> a in ids' && ids'[a] == ids[a])
    && (forall a :: a in ids' && a !in ids ==> rank(a) < bound)
  }

  lemma {:induction false} PushKeepsEncoding<D, J>(c: Conversions<D, J>, cells: Cells, rank: nat -> nat,
      nodes: seq<PNode<D, J>>, node: PNode<D, J>, id: nat, v: Value)
    requires Encodes(c, cells, rank, nodes, id, v) && TopOfNode(node) <= |nodes|
    ensures Encodes(c, cells, rank, nodes + [node], id, v)
  {
    DecodeLater(nodes, nodes + [node], id);
  }

  /** The memo once value v has got node id. */
  function Memoized(ids: map<nat, nat>, v: Value, id: nat): map<nat, nat> {
    if Shared(v) then ids[v.addr := id] else ids
  }

  lemma PushKeepsFaithful<D, J>(c: Conversions<D, J>, cells: Cells, rank: nat -> nat, nodes: seq<PNode<D, J>>,
      ids: map<nat, nat>, node: PNode<D, J>, v: Value)
    requires Ranked(cells, rank) && Fits(cells, v) && Faithful(c, cells, rank, nodes, ids)
    requires TopOfNode(node) <= |nodes| && DecodeNode(nodes, node) == Unfold(c, cells, rank, v)
    requires (Composite(node) <==> Shared(v)) && (Shared(v) ==> v.addr !in ids)
    ensures Faithful(c, cells, rank, nodes + [node], Memoized(ids, v, |nodes|))
    ensures Encodes(c, cells, rank, nodes + [node], |nodes|, v)
  {
    var nodes', ids' := nodes + [node], Memoized(ids, v, |nodes|);
    assert Descending(nodes');
    DecodeNodeLater(nodes, nodes', node);
    assert Encodes(c, cells, rank, nodes', |nodes|, v);
    forall a | a in ids'
      ensures Encodes(c, cells, rank, nodes', ids'[a], RefTo(cells, a))
    {
      if a in ids {
        PushKeepsEncoding(c, cells, rank, nodes, node, ids[a], RefTo(cells, a));
      }
    }
    PushKeepsOwners(nodes, ids, node, v);
  }

  lemma PushKeepsOwners<D, J>(nodes: seq<PNode<D, J>>, ids: map<nat, nat>, node: PNode<D, J>, v: Value)
    requires (Composite(node) <==> Shared(v)) && (Shared(v) ==> v.addr !in ids)
    requires forall i :: 0 <= i < |nodes| && Composite(nodes[i]) ==> Owned(ids, i)
    ensures forall i :: 0 <= i < |nodes + [node]| && Composite((nodes + [node])[i]) ==>
      Owned(Memoized(ids, v, |nodes|), i)
  {
    var ids' := Memoized(ids, v, |nodes|);
    forall i | 0 <= i < |nodes + [node]| && Composite((nodes + [node])[i])
      ensures Owned(ids', i)
    {
      if i < |nodes| {
        assert Owned(ids, i);
        var a :| a in ids && ids[a] == i;
        assert a in ids' && ids'[a] == i;
      } else {
        assert v.addr in ids' && ids'[v.addr] == i;
      }
    }
  }

  lemma PushKeepsSound<D, J>(c: Conversions<D, J>, cells: Cells, rank: nat -> nat, nodes: seq<PNode<D, J>>,
      ids: map<nat, nat>, node: PNode<D, J>, v: Value)
    requires Ranked(cells, rank) && Fits(cells, v) && Sound(c, cells, rank, nodes, ids)
    requires |nodes| <= LIMIT ==> TopOfNode(node) <= |nodes| && DecodeNode(nodes, node) == Unfold(c, cells, rank, v)
    requires (Composite(node) <==> Shared(v)) && (Shared(v) ==> v.addr !in ids)
    ensures Sound(c, cells, rank, nodes + [node], Memoized(ids, v, |nodes| % LIMIT))
    ensures |nodes + [node]| <= LIMIT ==> Encodes(c, cells, rank, nodes + [node], |nodes| % LIMIT, v)
  {
    if |nodes| < LIMIT {
      PushKeepsFaithful(c, cells, rank, nodes, ids, node, v);
      assert |nodes| % LIMIT == |nodes|;
    } else {
      assert |nodes + [node]| > LIMIT;
    }
  }

  // ---------------------------------------------------------------- the cells that are met

  function CellAddresses(c: Cell): set<nat> {
    match c
    case ArrayCell(items) => Addresses(items)
    case ObjectCell(entries) => EntryAddresses(entries)
  }

  ghost predicate ClosedCells(cells: Cells, s: set<nat>) {
    forall a :: a in s ==> a in cells && CellAddresses(cells[a]) <= s
  }

  /** The cells that the values are made of, directly or through others. */
  ghost function CellsOf(cells: Cells, items: seq<Value>): set<nat> {
    set a | a in cells && forall s :: ClosedCells(cells, s) && Addresses(items) <= s ==> a in s
  }

  lemma CellsOfClosed(cells: Cells, items: seq<Value>)
    requires WellFormed(cells) && CellFits(cells, ArrayCell(items))
    ensures ClosedCells(cells, CellsOf(cells, items)) && Addresses(items) <= CellsOf(cells, items)
  {
    forall a, b | a in CellsOf(cells, items) && b in CellAddresses(cells[a])
      ensures b in CellsOf(cells, items)
    {
      assert CellFits(cells, cells[a]);
    }
  }

  /** Cell a is at the end of some path from one of the values. */
  ghost predicate IsPart(cells: Cells, items: seq<Value>, a: nat)
    requires WellFormed(cells) && CellFits(cells, ArrayCell(items))
  {
    exists i, path :: 0 <= i < |items| && LeadsTo(cells, items[i], path, a)
  }

  predicate LeadsTo(cells: Cells, v: Value, path: seq<Segment>, a: nat)
    requires WellFormed(cells) && Fits(cells, v)
  {
    Follow(cells, v, path).Some? && a in Address(Follow(cells, v, path).value)
  }

  lemma StepInCell(cells: Cells, v: Value, step: Segment)
    requires WellFormed(cells) && Fits(cells, v) && Step(cells, v, step).Some?
    ensures Shared(v) && Address(Step(cells, v, step).value) <= CellAddresses(cells[v.addr])
  {
    if step.Index? {
      assert cells[v.addr].items[step.i] == Step(cells, v, step).value;
    }
  }

  lemma CellByStep(cells: Cells, v: Value, b: nat) returns (step: Segment)
    requires WellFormed(cells) && Fits(cells, v) && Shared(v) && b in CellAddresses(cells[v.addr])
    ensures Step(cells, v, step).Some? && b in Address(Step(cells, v, step).value)
  {
    match cells[v.addr]
    case ArrayCell(items) =>
      var i :| 0 <= i < |items| && Shared(items[i]) && items[i].addr == b;
      step := Index(i);
    case ObjectCell(entries) =>
      var k :| k in entries && Shared(entries[k]) && entries[k].addr == b;
      step := Key(k);
  }

  lemma {:induction false} PathInCells(cells: Cells, v: Value, path: seq<Segment>, s: set<nat>, a: nat)
    requires WellFormed(cells) && Fits(cells, v) && ClosedCells(cells, s) && Address(v) <= s
    requires LeadsTo(cells, v, path, a)
    ensures a in s
    decreases |path|
  {
    if path != [] {
      StepInCell(cells, v, path[0]);
      PathInCells(cells, Step(cells, v, path[0]).value, path[1..], s, a);
    }
  }

  lemma PartsOf(cells: Cells, items: seq<Value>, a: nat, b: nat)
    requires WellFormed(cells) && CellFits(cells, ArrayCell(items)) && IsPart(cells, items, a) && a in cells
    requires b in CellAddresses(cells[a])
    ensures IsPart(cells, items, b)
  {
    var i, path :| 0 <= i < |items| && LeadsTo(cells, items[i], path, a);
    var v := Follow(cells, items[i], path).value;
    var step := CellByStep(cells, v, b);
    FollowOn(cells, items[i], path, [step]);
    assert [step][1..] == [];
    assert LeadsTo(cells, items[i], path + [step], b);
  }

  /** The cells that values are made of are those at the ends of paths. */
  lemma CellsByPaths(cells: Cells, items: seq<Value>, a: nat)
    requires WellFormed(cells) && CellFits(cells, ArrayCell(items))
    ensures a in CellsOf(cells, items) <==> IsPart(cells, items, a)
  {
    CellsOfClosed(cells, items);
    if i, path :| 0 <= i < |items| && LeadsTo(cells, items[i], path, a) {
      assert Address(items[i]) <= Addresses(items);
      PathInCells(cells, items[i], path, CellsOf(cells, items), a);
    }
    if a in CellsOf(cells, items) {
      var s := set b | b in cells && IsPart(cells, items, b);
      forall b, d | b in s && d in CellAddresses(cells[b])
        ensures d in s
      {
        PartsOf(cells, items, b, d);
        assert CellFits(cells, cells[b]);
      }
      forall b | b in Addresses(items)
        ensures b in s
      {
        var i :| 0 <= i < |items| && Shared(items[i]) && items[i].addr == b;
        assert LeadsTo(cells, items[i], [], b);
      }
      assert ClosedCells(cells, s);
    }
  }

  /** The node of a value: the same leaf, or one child for each item or key, which is the node of it. */
  lemma NodeOfValue<D, J>(c: Conversions<D, J>, cells: Cells, rank: nat -> nat, nodes: seq<PNode<D, J>>, id: nat,
      v: Value)
    requires Encodes(c, cells, rank, nodes, id, v)
    ensures match v
      case Null => nodes[id] == NullNode
      case Bool(b) => nodes[id] == BoolNode(b)
      case Number(n) => nodes[id] == NumNode(c.double(n))
      case String(s) => nodes[id] == StrNode(s)
      case Dynamic(d) => nodes[id] == JsonNode(c.json(d))
      case Array(a) => nodes[id].ArrNode? && EncodesEach(c, cells, rank, nodes, nodes[id].children, cells[a].items)
      case Object(a) => nodes[id].ObjNode? && EncodesKeys(c, cells, rank, nodes, nodes[id].fields, cells[a].entries)
  {
    assert DecodeNode(nodes, nodes[id]) == Unfold(c, cells, rank, v);
    match v
    case Array(a) =>
      UnfoldItemsAt(c, cells, rank, cells[a].items);
      DecodeItemsAt(nodes, nodes[id].children);
    case Object(a) =>
      FieldsOfObject(c, cells, rank, nodes, nodes[id].fields, cells[a].entries, rank(a));
    case _ =>
  }

  lemma FieldsOfObject<D, J>(c: Conversions<D, J>, cells: Cells, rank: nat -> nat, nodes: seq<PNode<D, J>>,
      fields: seq<(string, nat)>, entries: map<string, Value>, bound: nat)
    requires EncodesFields(c, cells, rank, nodes, fields, entries, bound)
    ensures EncodesKeys(c, cells, rank, nodes, fields, entries)
  {
    var unfolded := UnfoldEntries(c, cells, rank, entries, bound);
    forall k
      ensures k in entries <==> exists j :: LastField(fields, k, j)
      ensures forall j :: LastField(fields, k, j) ==>
        k in entries && Encodes(c, cells, rank, nodes, fields[j].1, entries[k])
    {
      DecodeFieldsAt(nodes, fields, k);
      assert k in unfolded <==> k in entries;
    }
  }

  ghost predicate EncodesEach<D, J>(c: Conversions<D, J>, cells: Cells, rank: nat -> nat, nodes: seq<PNode<D, J>>,
      children: seq<nat>, items: seq<Value>) {
    |children| == |items| && forall i :: 0 <= i < |items| ==> Encodes(c, cells, rank, nodes, children[i], items[i])
  }

  ghost predicate EncodesKeys<D, J>(c: Conversions<D, J>, cells: Cells, rank: nat -> nat, nodes: seq<PNode<D, J>>,
      fields: seq<(string, nat)>, entries: map<string, Value>) {
    && (forall k :: k in entries <==> exists j :: LastField(fields, k, j))
    && forall k, j :: LastField(fields, k, j) ==>
         k in entries && Encodes(c, cells, rank, nodes, fields[j].1, entries[k])
  }

  /** The field at j is the last of its name. */
  predicate LastField(fields: seq<(string, nat)>, k: string, j: int) {
    0 <= j < |fields| && fields[j].0 == k && forall m :: j < m < |fields| ==> fields[m].0 != k
  }

  lemma {:induction false} DecodeItemsAt<D, J>(nodes: seq<PNode<D, J>>, children: seq<nat>)
    requires Descending(nodes) && Top(children) <= |nodes|
    ensures |DecodeItems(nodes, children)| == |children|
    ensures forall i :: 0 <= i < |children| ==> DecodeItems(nodes, children)[i] == Decode(nodes, children[i])
  {
    if children != [] {
      DecodeItemsAt(nodes, children[..|children| - 1]);
    }
  }

  lemma {:induction false} DecodeFieldsAt<D, J>(nodes: seq<PNode<D, J>>, fields: seq<(string, nat)>, k: string)
    requires Descending(nodes) && TopOfFields(fields) <= |nodes|
    ensures k in DecodeFields(nodes, fields) <==> exists j :: LastField(fields, k, j)
    ensures forall j :: LastField(fields, k, j) ==>
      k in DecodeFields(nodes, fields) && DecodeFields(nodes, fields)[k] == Decode(nodes, fields[j].1)
  {
    if fields != [] {
      var n := |fields| - 1;
      DecodeFieldsAt(nodes, fields[..n], k);
      if fields[n].0 == k {
        assert LastField(fields, k, n);
      } else {
        forall j
          ensures LastField(fields, k, j) <==> LastField(fields[..n], k, j)
        {
        }
      }
    }
  }

  /** A remembered cell comes with the cells that it refers to, and all are among s. */
  ghost predicate Within(cells: Cells, ids: map<nat, nat>, s: set<nat>) {
    ClosedCells(cells, ids.Keys) && ids.Keys <= s && ClosedCells(cells, s)
  }

  class Memo {
    var ids: map<nat, nat>

    constructor ()
      ensures ids == map[]
    {
      ids := map[];
    }
  }

  class Arena<D(!new), J(!new)> {
    var nodes: seq<PNode<D, J>>

    constructor ()
      ensures nodes == []
    {
      nodes := [];
    }

    /** Adds a value and returns its index. */
    method Add(c: Conversions<D, J>, h: Heap, v: Value, memo: Memo, ghost rank: nat -> nat, ghost s: set<nat>)
      returns (id: nat)
      requires Ranked(h.cells, rank) && Fits(h.cells, v) && Sound(c, h.cells, rank, nodes, memo.ids)
      requires Within(h.cells, memo.ids, s) && Address(v) <= s
      modifies this, memo
      ensures Sound(c, h.cells, rank, nodes, memo.ids) && Within(h.cells, memo.ids, s)
      ensures Grown(old(nodes), old(memo.ids), nodes, memo.ids, rank, Height(rank, v))
      ensures |nodes| <= LIMIT ==> Encodes(c, h.cells, rank, nodes, id, v)
      ensures Shared(v) ==> v.addr in memo.ids && memo.ids[v.addr] == id
      ensures Shared(v) && v.addr in old(memo.ids) ==> nodes == old(nodes)
      decreases Height(rank, v), 1
    {
      if Shared(v) && v.addr in memo.ids {
        return memo.ids[v.addr];
      }
      var node := MakeNode(c, h, v, memo, rank, s);
      id := Push(c, h, v, node, memo, rank, s);
    }

    method Push(c: Conversions<D, J>, h: Heap, v: Value, node: PNode<D, J>, memo: Memo,
        ghost rank: nat -> nat, ghost s: set<nat>) returns (id: nat)
      requires Ranked(h.cells, rank) && Fits(h.cells, v) && Sound(c, h.cells, rank, nodes, memo.ids)
      requires Within(h.cells, memo.ids, s) && Address(v) <= s
      requires Shared(v) ==> CellAddresses(h.cells[v.addr]) <= memo.ids.Keys
      requires (Composite(node) <==> Shared(v)) && (Shared(v) ==> v.addr !in memo.ids)
      requires |nodes| <= LIMIT ==> TopOfNode(node) <= |nodes| && DecodeNode(nodes, node) == Unfold(c, h.cells, rank, v)
      modifies this, memo
      ensures Sound(c, h.cells, rank, nodes, memo.ids) && Within(h.cells, memo.ids, s)
      ensures nodes == old(nodes) + [node] && id == |old(nodes)| % LIMIT && memo.ids == Memoized(old(memo.ids), v, id)
      ensures |nodes| <= LIMIT ==> Encodes(c, h.cells, rank, nodes, id, v)
    {
      PushKeepsSound(c, h.cells, rank, nodes, memo.ids, node, v);
      id := |nodes| % LIMIT;
      nodes := nodes + [node];
      if Shared(v) {
        memo.ids := memo.ids[v.addr := id];
      }
    }

    /** The node of a value, once its children have been added. */
    method MakeNode(c: Conversions<D, J>, h: Heap, v: Value, memo: Memo,
        ghost rank: nat -> nat, ghost s: set<nat>) returns (node: PNode<D, J>)
      requires Ranked(h.cells, rank) && Fits(h.cells, v) && Sound(c, h.cells, rank, nodes, memo.ids)
      requires Within(h.cells, memo.ids, s) && Address(v) <= s
      modifies this, memo
      ensures Sound(c, h.cells, rank, nodes, memo.ids) && Within(h.cells, memo.ids, s)
      ensures Shared(v) ==> CellAddresses(h.cells[v.addr]) <= memo.ids.Keys
      ensures Grown(old(nodes), old(memo.ids), nodes, memo.ids, rank, if Shared(v) then rank(v.addr) else 0)
      ensures Composite(node) <==> Shared(v)
      ensures |nodes| <= LIMIT ==> TopOfNode(node) <= |nodes| && DecodeNode(nodes, node) == Unfold(c, h.cells, rank, v)
      decreases if Shared(v) then rank(v.addr) else 0, if Shared(v) then 3 else 0
    {
      match v
      case Null => node := NullNode;
      case Bool(b) => node := BoolNode(b);
      case Number(n) => node := NumNode(c.double(n));
      case String(s) => node := StrNode(s);
      case Dynamic(d) => node := JsonNode(c.json(d));
      case Array(a) =>
        var children := AddItems(c, h, h.cells[a].items, memo, rank, rank(a), s);
        node := ArrNode(children);
      case Object(a) =>
        var fields := AddEntries(c, h, h.cells[a].entries, memo, rank, rank(a), s);
        node := ObjNode(fields);
    }

    method AddItems(c: Conversions<D, J>, h: Heap, items: seq<Value>, memo: Memo, ghost rank: nat -> nat,
        ghost bound: nat, ghost s: set<nat>)
      returns (children: seq<nat>)
      requires Ranked(h.cells, rank) && CellFits(h.cells, ArrayCell(items)) && RankedCell(ArrayCell(items), rank, bound)
      requires Sound(c, h.cells, rank, nodes, memo.ids) && Within(h.cells, memo.ids, s) && Addresses(items) <= s
      modifies this, memo
      ensures Sound(c, h.cells, rank, nodes, memo.ids) && Within(h.cells, memo.ids, s) &&
        Addresses(items) <= memo.ids.Keys
      ensures Grown(old(nodes), old(memo.ids), nodes, memo.ids, rank, bound)
      ensures |nodes| <= LIMIT ==> EncodesItems(c, h.cells, rank, nodes, children, items)
      decreases bound, 2
    {
      children := [];
      var i := 0;
      while i < |items|
        invariant 0 <= i <= |items|
        invariant Sound(c, h.cells, rank, nodes, memo.ids) && Within(h.cells, memo.ids, s)
        invariant forall j :: 0 <= j < i ==> Address(items[j]) <= memo.ids.Keys
        invariant Grown(old(nodes), old(memo.ids), nodes, memo.ids, rank, bound)
        invariant |nodes| <= LIMIT ==> EncodesItems(c, h.cells, rank, nodes, children, items[..i])
      {
        ghost var before := nodes;
        var child := Add(c, h, items[i], memo, rank, s);
        if |nodes| <= LIMIT {
          OneMoreItem(c, h.cells, rank, before, nodes, children, items, i, child);
        }
        children := children + [child];
        i := i + 1;
      }
      assert items[..i] == items;
    }

    /** The entries are added in any order. */
    method AddEntries(c: Conversions<D, J>, h: Heap, entries: map<string, Value>, memo: Memo,
        ghost rank: nat -> nat, ghost bound: nat, ghost s: set<nat>)
      returns (fields: seq<(string, nat)>)
      requires Ranked(h.cells, rank) && CellFits(h.cells, ObjectCell(entries)) &&
        RankedCell(ObjectCell(entries), rank, bound)
      requires Sound(c, h.cells, rank, nodes, memo.ids) && Within(h.cells, memo.ids, s) && EntryAddresses(entries) <= s
      modifies this, memo
      ensures Sound(c, h.cells, rank, nodes, memo.ids) && Within(h.cells, memo.ids, s)
      ensures EntryAddresses(entries) <= memo.ids.Keys
      ensures Grown(old(nodes), old(memo.ids), nodes, memo.ids, rank, bound)
      ensures |nodes| <= LIMIT ==> EncodesFields(c, h.cells, rank, nodes, fields, entries, bound)
      decreases bound, 2
    {
      fields := [];
      var rest := entries.Keys;
      assert entries - rest == map[];
      while rest != {}
        invariant rest <= entries.Keys
        invariant Sound(c, h.cells, rank, nodes, memo.ids) && Within(h.cells, memo.ids, s)
        invariant forall k :: k in entries && k !in rest ==> Address(entries[k]) <= memo.ids.Keys
        invariant Grown(old(nodes), old(memo.ids), nodes, memo.ids, rank, bound)
        invariant |nodes| <= LIMIT ==> EncodesFields(c, h.cells, rank, nodes, fields, entries - rest, bound)
      {
        var k :| k in rest;
        ghost var before := nodes;
        var child := Add(c, h, entries[k], memo, rank, s);
        if |nodes| <= LIMIT {
          OneMoreField(c, h.cells, rank, before, nodes, fields, entries, rest, k, child, bound);
        }
        fields := fields + [(k, child)];
        rest := rest - {k};
      }
      assert entries - {} == entries;
    }
  }

  ghost predicate EncodesItems<D, J>(c: Conversions<D, J>, cells: Cells, rank: nat -> nat, nodes: seq<PNode<D, J>>,
      children: seq<nat>, items: seq<Value>) {
    && Ranked(cells, rank) && CellFits(cells, ArrayCell(items)) && Descending(nodes) && Top(children) <= |nodes|
    && DecodeItems(nodes, children) == UnfoldItems(c, cells, rank, items)
  }

  ghost predicate EncodesFields<D, J>(c: Conversions<D, J>, cells: Cells, rank: nat -> nat, nodes: seq<PNode<D, J>>,
      fields: seq<(string, nat)>, entries: map<string, Value>, bound: nat) {
    && Ranked(cells, rank) && CellFits(cells, ObjectCell(entries)) && RankedCell(ObjectCell(entries), rank, bound)
    && Descending(nodes) && TopOfFields(fields) <= |nodes|
    && DecodeFields(nodes, fields) == UnfoldEntries(c, cells, rank, entries, bound)
  }

  lemma OneMoreItem<D, J>(c: Conversions<D, J>, cells: Cells, rank: nat -> nat, nodes: seq<PNode<D, J>>,
      nodes': seq<PNode<D, J>>, children: seq<nat>, items: seq<Value>, i: nat, child: nat)
    requires i < |items| && CellFits(cells, ArrayCell(items))
    requires EncodesItems(c, cells, rank, nodes, children, items[..i])
    requires nodes <= nodes' && Encodes(c, cells, rank, nodes', child, items[i])
    ensures EncodesItems(c, cells, rank, nodes', children + [child], items[..i + 1])
  {
    DecodeItemsLater(nodes, nodes', children);
    assert (children + [child])[..|children|] == children;
    assert items[..i + 1][..i] == items[..i];
  }

  lemma OneMoreField<D, J>(c: Conversions<D, J>, cells: Cells, rank: nat -> nat, nodes: seq<PNode<D, J>>,
      nodes': seq<PNode<D, J>>, fields: seq<(string, nat)>, entries: map<string, Value>, rest: set<string>,
      k: string, child: nat, bound: nat)
    requires k in rest && k in entries && CellFits(cells, ObjectCell(entries)) &&
      RankedCell(ObjectCell(entries), rank, bound)
    requires EncodesFields(c, cells, rank, nodes, fields, entries - rest, bound)
    requires nodes <= nodes' && Encodes(c, cells, rank, nodes', child, entries[k])
    ensures EncodesFields(c, cells, rank, nodes', fields + [(k, child)], entries - (rest - {k}), bound)
  {
    DecodeFieldsLater(nodes, nodes', fields);
    assert (fields + [(k, child)])[..|fields|] == fields;
    assert entries - (rest - {k}) == (entries - rest)[k := entries[k]];
    assert UnfoldEntries(c, cells, rank, entries - (rest - {k}), bound)
        == UnfoldEntries(c, cells, rank, entries - rest, bound)[k := Unfold(c, cells, rank, entries[k])];
  }

  lemma {:induction false} InjectiveSize(m: map<nat, nat>)
    requires forall a, b :: a in m && b in m && m[a] == m[b] ==> a == b
    ensures |m.Values| == |m.Keys|
  {
    if m.Keys != {} {
      var a :| a in m.Keys;
      InjectiveSize(m - {a});
      assert (m - {a}).Keys == m.Keys - {a};
      assert m.Values == (m - {a}).Values + {m[a]} by {
        forall v | v in m.Values
          ensures v in (m - {a}).Values + {m[a]}
        {
          var b :| b in m && m[b] == v;
          assert b != a ==> b in m - {a} && (m - {a})[b] == v;
        }
      }
    } else {
      assert m.Values == {};
    }
  }

  function CompositeNodes<D, J>(nodes: seq<PNode<D, J>>): set<nat> {
    set i | 0 <= i < |nodes| && Composite(nodes[i])
  }

  /** As many composite nodes as cells that were met: every cell is encoded once. */
  lemma OneNodePerCell<D, J>(c: Conversions<D, J>, cells: Cells, rank: nat -> nat, nodes: seq<PNode<D, J>>,
      ids: map<nat, nat>)
    requires Faithful(c, cells, rank, nodes, ids)
    ensures |CompositeNodes(nodes)| == |ids|
  {
    var composite := CompositeNodes(nodes);
    forall i | i in ids.Values
      ensures i in composite
    {
      var a :| a in ids && ids[a] == i;
      assert Encodes(c, cells, rank, nodes, i, RefTo(cells, a));
      var plain := Unfold(c, cells, rank, RefTo(cells, a));
      assert plain.PlainArr? || plain.PlainObj?;
      assert DecodeNode(nodes, nodes[i]) == plain;
    }
    forall i | i in composite
      ensures i in ids.Values
    {
      assert Owned(ids, i);
    }
    assert composite == ids.Values;
    InjectiveSize(ids);
    assert |ids| == |ids.Keys|;
  }

  // ---------------------------------------------------------------- the decoder

  class Materializer<D(!new), J(!new)> {
    const nodes: seq<PNode<D, J>>
    const cache: array<Option<Plain<D, J>>>
    /** The nodes in the order they were built. */
    ghost var built: seq<nat>

    constructor (nodes: seq<PNode<D, J>>)
      requires Descending(nodes)
      ensures this.nodes == nodes && Valid() && built == [] && fresh(cache)
    {
      this.nodes := nodes;
      this.cache := new Option<Plain<D, J>>[|nodes|](i => None);
      built := [];
    }

    /** What is cached is what plain decoding gives, and nothing has been built twice. */
    ghost predicate Valid()
      reads this, cache
    {
      && cache.Length == |nodes| && Descending(nodes)
      && (forall i :: 0 <= i < |nodes| && cache[i].Some? ==> cache[i].value == Decode(nodes, i))
      && (forall k :: 0 <= k < |built| ==> built[k] < |nodes| && cache[built[k]].Some?)
      && (forall i :: 0 <= i < |nodes| && cache[i].Some? ==> i in built)
      && (forall j, k :: 0 <= j < k < |built| ==> built[j] != built[k])
    }

    method ValueOf(id: nat) returns (v: Plain<D, J>)
      requires Valid() && id < |nodes|
      modifies this, cache
      ensures Valid() && v == Decode(nodes, id) && cache[id].Some?
      ensures old(built) <= built && forall k :: |old(built)| <= k < |built| ==> built[k] <= id
      decreases id + 1, 0
    {
      if cache[id].Some? {
        return cache[id].value;
      }
      v := Build(id);
      cache[id] := Some(v);
      built := built + [id];
    }

    method Build(id: nat) returns (v: Plain<D, J>)
      requires Valid() && id < |nodes|
      modifies this, cache
      ensures Valid() && v == Decode(nodes, id)
      ensures old(built) <= built && forall k :: |old(built)| <= k < |built| ==> built[k] < id
      decreases id, 3
    {
      match nodes[id]
      case NullNode => v := PlainNull;
      case BoolNode(b) => v := PlainBool(b);
      case NumNode(n) => v := PlainNum(n);
      case StrNode(s) => v := PlainStr(s);
      case ArrNode(children) =>
        var items := BuildItems(children, id);
        v := PlainArr(items);
      case ObjNode(fields) =>
        var entries := BuildFields(fields, id);
        v := PlainObj(entries);
      case JsonNode(j) => v := PlainJson(j);
    }

    method BuildItems(children: seq<nat>, ghost bound: nat) returns (items: seq<Plain<D, J>>)
      requires Valid() && Top(children) <= bound <= |nodes|
      modifies this, cache
      ensures Valid() && items == DecodeItems(nodes, children)
      ensures old(built) <= built && forall k :: |old(built)| <= k < |built| ==> built[k] < bound
      decreases bound, 2
    {
      items := [];
      var i := 0;
      while i < |children|
        invariant 0 <= i <= |children| && Valid()
        invariant Top(children[..i]) <= |nodes| && items == DecodeItems(nodes, children[..i])
        invariant old(built) <= built && forall k :: |old(built)| <= k < |built| ==> built[k] < bound
      {
        var item := ValueOf(children[i]);
        assert children[..i + 1][..i] == children[..i];
        items := items + [item];
        i := i + 1;
      }
      assert children[..i] == children;
    }

    method BuildFields(fields: seq<(string, nat)>, ghost bound: nat) returns (entries: map<string, Plain<D, J>>)
      requires Valid() && TopOfFields(fields) <= bound <= |nodes|
      modifies this, cache
      ensures Valid() && entries == DecodeFields(nodes, fields)
      ensures old(built) <= built && forall k :: |old(built)| <= k < |built| ==> built[k] < bound
      decreases bound, 2
    {
      entries := map[];
      var i := 0;
      while i < |fields|
        invariant 0 <= i <= |fields| && Valid()
        invariant TopOfFields(fields[..i]) <= |nodes| && entries == DecodeFields(nodes, fields[..i])
        invariant old(built) <= built && forall k :: |old(built)| <= k < |built| ==> built[k] < bound
      {
        var v := ValueOf(fields[i].1);
        assert fields[..i + 1][..i] == fields[..i];
        entries := entries[fields[i].0 := v];
        i := i + 1;
      }
      assert fields[..i] == fields;
    }
  }

  /**
   All roots into one arena with one memo: every cell that the roots are made of is
   encoded once, and however the roots share their parts, the indices decode to the
   roots, as long as the arena holds no more nodes than its indices can name.
   */
  method EncodeRoots<D(!new), J(!new)>(c: Conversions<D, J>, h: Heap, roots: seq<Value>, ghost rank: nat -> nat)
    returns (nodes: seq<PNode<D, J>>, ids: seq<nat>, cellIds: map<nat, nat>)
    requires Ranked(h.cells, rank) && CellFits(h.cells, ArrayCell(roots))
    ensures forall a :: a in cellIds <==> IsPart(h.cells, roots, a)
    ensures |nodes| <= 0x1_0000_0000 ==>
      EncodesItems(c, h.cells, rank, nodes, ids, roots) && Faithful(c, h.cells, rank, nodes, cellIds)
    ensures |nodes| <= 0x1_0000_0000 ==> |CompositeNodes(nodes)| == |cellIds|
  {
    var arena := new Arena<D, J>();
    var memo := new Memo();
    CellsOfClosed(h.cells, roots);
    ids := arena.AddItems(c, h, roots, memo, rank, MaxHeight(rank, roots), CellsOf(h.cells, roots));
    nodes, cellIds := arena.nodes, memo.ids;
    AllCellsMet(h.cells, roots, cellIds);
    forall a
      ensures a in cellIds <==> IsPart(h.cells, roots, a)
    {
      CellsByPaths(h.cells, roots, a);
    }
    if |nodes| <= LIMIT {
      OneNodePerCell(c, h.cells, rank, nodes, cellIds);
    }
  }

  lemma AllCellsMet(cells: Cells, roots: seq<Value>, ids: map<nat, nat>)
    requires Within(cells, ids, CellsOf(cells, roots)) && Addresses(roots) <= ids.Keys
    ensures ids.Keys == CellsOf(cells, roots) && |ids| == |CellsOf(cells, roots)|
  {
    assert |ids| == |ids.Keys|;
  }

  /** All roots out of an arena with one cache: what the roots were before they were encoded. */
  method MaterializeRoots<D(!new), J(!new)>(ghost c: Conversions<D, J>, ghost cells: Cells, ghost rank: nat -> nat,
      ghost roots: seq<Value>, nodes: seq<PNode<D, J>>, ids: seq<nat>)
    returns (arrived: seq<Plain<D, J>>)
    requires Ranked(cells, rank) && CellFits(cells, ArrayCell(roots)) && EncodesItems(c, cells, rank, nodes, ids, roots)
    ensures arrived == UnfoldItems(c, cells, rank, roots) && |arrived| == |roots|
    ensures forall i, path :: 0 <= i < |roots| ==> AlikeAlong(c, cells, arrived[i], roots[i], path)
  {
    var materializer := new Materializer<D, J>(nodes);
    arrived := materializer.BuildItems(ids, |nodes|);
    UnfoldItemsAt(c, cells, rank, roots);
    forall i, path | 0 <= i < |roots|
      ensures AlikeAlong(c, cells, arrived[i], roots[i], path)
    {
      UnfoldAlike(c, cells, rank, roots[i], path);
    }
  }
}
