/**
 The validator of policy inputs. Which errors it reports for an input is a set that
 only depends on the schema and the input, and it is empty exactly if the input
 conforms to the schema.
 */
module InputValidator {
  import opened Wrappers
  import opened ValueHeap

  /** Entities may be nested in 32 levels. */
  const MAX_RECURSION_DEPTH: nat := 32

  datatype Kind =
    | StringKind
    | EnumKind(values: seq<string>)
    | NumberKind
    | BooleanKind
    | DateKind
    | RelationshipKind(target: string)
    | ReferenceKind(target: string)

  datatype Property = Property(name: string, kind: Kind, isArray: bool)

  datatype Schema = Schema(
    entities: map<string, seq<Property>>,
    globals: map<string, Property>,
    roots: set<string>,
    refTargets: set<string>,
    dictionaries: map<string, seq<string>>
  )

  /** The ids that references to each target may use. */
  type Pools = map<string, set<string>>

  datatype TypeName = NullType | BoolType | NumberType | StringType | ArrayType | ObjectType | DynamicType(id: nat)

  datatype Expected =
    | AnyObject
    | EntityObject(entity: string)
    | ShallowNesting
    | ArrayOfKind(kind: Kind)
    | ArrayOfEntity(entity: string)
    | OfKind(kind: Kind)
    | OneOf(values: seq<string>)
    | ReferenceId(target: string)
    | PooledId(target: string)

  datatype Got = GotType(t: TypeName) | GotDeeper | GotText(s: string) | GotUnknownId(s: string)

  datatype InputError = InputError(path: seq<Segment>, expected: Expected, got: Got)

  function TypeOf(v: Value): TypeName {
    match v
    case Null => NullType
    case Bool(_) => BoolType
    case Number(_) => NumberType
    case String(_) => StringType
    case Array(_) => ArrayType
    case Object(_) => ObjectType
    case Dynamic(id) => DynamicType(id)
  }

  // ---------------------------------------------------------------- conformance

  predicate HasProperty(props: seq<Property>, name: string) {
    exists i :: 0 <= i < |props| && props[i].name == name
  }

  /** The first property of that name. */
  function PropertyOf(props: seq<Property>, name: string): (p: Property)
    requires HasProperty(props, name)
    ensures p.name == name
  {
    if props[0].name == name then props[0] else PropertyOf(props[1..], name)
  }

  lemma {:induction false} FirstOfName(props: seq<Property>, i: nat)
    requires i < |props| && forall j :: 0 <= j < i ==> props[j].name != props[i].name
    ensures HasProperty(props, props[i].name) && PropertyOf(props, props[i].name) == props[i]
  {
    if i > 0 {
      FirstOfName(props[1..], i - 1);
    }
  }

  /** A relationship to a dictionary that no entity hides is an enumeration. */
  predicate IsDictionary(s: Schema, target: string) {
    target !in s.entities && target in s.dictionaries
  }

  /** An object whose properties conform, with at most so many levels of entities. */
  predicate ConformsToEntity(s: Schema, pools: Pools, cells: Cells, v: Value, name: string, levels: nat)
    requires WellFormed(cells) && Fits(cells, v)
    decreases levels, 0
  {
    && levels > 0 && v.Object?
    && (name in s.entities ==>
      forall k :: k in cells[v.addr].entries && cells[v.addr].entries[k] != Null && HasProperty(s.entities[name], k) ==>
        ConformsToProperty(s, pools, cells, cells[v.addr].entries[k], PropertyOf(s.entities[name], k), levels - 1))
  }

  predicate ConformsToProperty(s: Schema, pools: Pools, cells: Cells, v: Value, prop: Property, levels: nat)
    requires WellFormed(cells) && Fits(cells, v)
    decreases levels, 2
  {
    if prop.isArray then
      && v.Array?
      && forall i :: 0 <= i < |cells[v.addr].items| && cells[v.addr].items[i] != Null ==>
        ConformsToKind(s, pools, cells, cells[v.addr].items[i], prop.kind, levels)
    else
      ConformsToKind(s, pools, cells, v, prop.kind, levels)
  }

  predicate ConformsToKind(s: Schema, pools: Pools, cells: Cells, v: Value, kind: Kind, levels: nat)
    requires WellFormed(cells) && Fits(cells, v)
    decreases levels, 1
  {
    match kind
    case StringKind => v.String?
    case DateKind => v.String?
    case NumberKind => v.Number?
    case BooleanKind => v.Bool?
    case EnumKind(values) => v.String? && v.s in values
    case ReferenceKind(target) => v.String? && target in pools && v.s in pools[target]
    case RelationshipKind(target) =>
      if IsDictionary(s, target) then v.String? && v.s in s.dictionaries[target]
      else ConformsToEntity(s, pools, cells, v, target, levels)
  }

  /** What a top-level entry of the input has to be; entries with other names are ignored. */
  predicate ConformsAtTop(s: Schema, pools: Pools, cells: Cells, key: string, v: Value)
    requires WellFormed(cells) && Fits(cells, v)
  {
    if key in s.refTargets then
      && v.Array?
      && forall i :: 0 <= i < |cells[v.addr].items| && cells[v.addr].items[i] != Null ==>
        ConformsToEntity(s, pools, cells, cells[v.addr].items[i], key, MAX_RECURSION_DEPTH)
    else if key in s.roots then ConformsToEntity(s, pools, cells, v, key, MAX_RECURSION_DEPTH)
    else if key in s.globals then ConformsToProperty(s, pools, cells, v, s.globals[key], MAX_RECURSION_DEPTH)
    else true
  }

  /** A missing input, or an object whose entries conform. */
  ghost predicate Conforms(s: Schema, cells: Cells, input: Value)
    requires WellFormed(cells) && Fits(cells, input)
  {
    input == Null ||
    (input.Object? &&
      forall k :: k in cells[input.addr].entries && cells[input.addr].entries[k] != Null ==>
        ConformsAtTop(s, PoolsOf(s, cells, input), cells, k, cells[input.addr].entries[k]))
  }

  /** The limit on nesting only ever rejects: what conforms within some levels conforms within more. */
  lemma {:induction false} MoreLevelsAllowMore(s: Schema, pools: Pools, cells: Cells, v: Value, name: string,
      levels: nat, more: nat)
    requires WellFormed(cells) && Fits(cells, v) && levels <= more
    ensures ConformsToEntity(s, pools, cells, v, name, levels) ==> ConformsToEntity(s, pools, cells, v, name, more)
    decreases levels, 0
  {
    if ConformsToEntity(s, pools, cells, v, name, levels) && name in s.entities {
      var entries, props := cells[v.addr].entries, s.entities[name];
      forall k | k in entries && entries[k] != Null && HasProperty(props, k)
        ensures ConformsToProperty(s, pools, cells, entries[k], PropertyOf(props, k), more - 1)
      {
        MoreLevelsForProperty(s, pools, cells, entries[k], PropertyOf(props, k), levels - 1, more - 1);
      }
    }
  }

  lemma {:induction false} MoreLevelsForProperty(s: Schema, pools: Pools, cells: Cells, v: Value, prop: Property,
      levels: nat, more: nat)
    requires WellFormed(cells) && Fits(cells, v) && levels <= more
    ensures ConformsToProperty(s, pools, cells, v, prop, levels) ==> ConformsToProperty(s, pools, cells, v, prop, more)
    decreases levels, 2
  {
    if !prop.isArray {
      MoreLevelsForKind(s, pools, cells, v, prop.kind, levels, more);
    } else if v.Array? {
      forall i | 0 <= i < |cells[v.addr].items|
        ensures ConformsToKind(s, pools, cells, cells[v.addr].items[i], prop.kind, levels) ==>
          ConformsToKind(s, pools, cells, cells[v.addr].items[i], prop.kind, more)
      {
        MoreLevelsForKind(s, pools, cells, cells[v.addr].items[i], prop.kind, levels, more);
      }
    }
  }

  lemma {:induction false} MoreLevelsForKind(s: Schema, pools: Pools, cells: Cells, v: Value, kind: Kind,
      levels: nat, more: nat)
    requires WellFormed(cells) && Fits(cells, v) && levels <= more
    ensures ConformsToKind(s, pools, cells, v, kind, levels) ==> ConformsToKind(s, pools, cells, v, kind, more)
    decreases levels, 1
  {
    if kind.RelationshipKind? {
      MoreLevelsAllowMore(s, pools, cells, v, kind.target, levels, more);
    }
  }

  // ---------------------------------------------------------------- reference pools

  function Split(s: string): (r: seq<string>)
    ensures |r| > 0
  {
    if s == "" then [""]
    else
      var rest := Split(s[1..]);
      if s[0] == '.' then [""] + rest else [[s[0]] + rest[0]] + rest[1..]
  }

  /** Follows names into objects; Null where there is nothing. */
  function Dot(cells: Cells, v: Value, parts: seq<string>): (r: Value)
    requires WellFormed(cells) && Fits(cells, v)
    ensures Fits(cells, r)
    decreases |parts|
  {
    if parts == [] then v
    else if v.Object? && parts[0] in cells[v.addr].entries then
      assert CellFits(cells, cells[v.addr]);
      Dot(cells, cells[v.addr].entries[parts[0]], parts[1..])
    else Null
  }

  function ItemId(cells: Cells, item: Value): set<string>
    requires WellFormed(cells) && Fits(cells, item)
  {
    var id := Dot(cells, item, ["id"]);
    if id.String? then {id.s} else {}
  }

  /** The ids of the items of the array that the input holds for a target. */
  ghost function PoolOf(cells: Cells, input: Value, target: string): set<string>
    requires WellFormed(cells) && Fits(cells, input)
  {
    var pool := Dot(cells, input, Split(target));
    if pool.Array? then
      set i, id | 0 <= i < |cells[pool.addr].items| && id in ItemId(cells, cells[pool.addr].items[i]) :: id
    else {}
  }

  ghost function PoolsOf(s: Schema, cells: Cells, input: Value): Pools
    requires WellFormed(cells) && Fits(cells, input)
  {
    map target | target in s.refTargets :: PoolOf(cells, input, target)
  }

  /** A name without dots stands alone, and with a dot after it comes first. */
  lemma {:induction false} SplitExactly(name: string, rest: string)
    requires '.' !in name
    ensures Split(name) == [name] && Split(name + "." + rest) == [name] + Split(rest)
  {
    if name == "" {
      assert ("" + "." + rest)[1..] == rest;
      assert [""] + Split(rest) == [name] + Split(rest);
    } else {
      assert '.' !in name[1..] && name[0] != '.';
      SplitExactly(name[1..], rest);
      assert (name + "." + rest)[1..] == name[1..] + "." + rest;
      assert [name[0]] + name[1..] == name;
    }
  }

  function Keys(parts: seq<string>): (path: seq<Segment>)
    ensures |path| == |parts| && forall i :: 0 <= i < |parts| ==> path[i] == Key(parts[i])
  {
    seq(|parts|, i requires 0 <= i < |parts| => Key(parts[i]))
  }

  lemma {:induction false} DotFollows(cells: Cells, v: Value, parts: seq<string>)
    requires WellFormed(cells) && Fits(cells, v)
    ensures Dot(cells, v, parts) == match Follow(cells, v, Keys(parts)) {
      case None => Null
      case Some(found) => found
    }
    decreases |parts|
  {
    if parts != [] {
      assert Keys(parts)[0] == Key(parts[0]) && Keys(parts)[1..] == Keys(parts[1..]);
      if v.Object? && parts[0] in cells[v.addr].entries {
        DotFollows(cells, Step(cells, v, Key(parts[0])).value, parts[1..]);
      }
    }
  }

  /** An id is in a pool exactly if it is the string at "id" of an item of the array at the target's path. */
  lemma PoolExactly(cells: Cells, input: Value, target: string, id: string)
    requires WellFormed(cells) && Fits(cells, input)
    ensures id in PoolOf(cells, input, target) <==>
      exists i :: Follow(cells, input, Keys(Split(target)) + [Index(i), Key("id")]) == Some(String(id))
  {
    var pool := Dot(cells, input, Split(target));
    DotFollows(cells, input, Split(target));
    forall i: nat
      ensures Follow(cells, input, Keys(Split(target)) + [Index(i), Key("id")]) == Some(String(id)) <==>
        pool.Array? && i < |cells[pool.addr].items| && id in ItemId(cells, cells[pool.addr].items[i])
    {
      IdOfItem(cells, input, Keys(Split(target)), i, id);
    }
    if pool.Array? && id in PoolOf(cells, input, target) {
      var i: nat :| i < |cells[pool.addr].items| && id in ItemId(cells, cells[pool.addr].items[i]);
      assert Follow(cells, input, Keys(Split(target)) + [Index(i), Key("id")]) == Some(String(id));
    }
  }

  lemma IdOfItem(cells: Cells, input: Value, path: seq<Segment>, i: nat, id: string)
    requires WellFormed(cells) && Fits(cells, input)
    ensures Follow(cells, input, path + [Index(i), Key("id")]) == Some(String(id)) <==>
      var pool := Follow(cells, input, path);
      pool.Some? && pool.value.Array? && i < |cells[pool.value.addr].items| &&
        id in ItemId(cells, cells[pool.value.addr].items[i])
  {
    FollowOn(cells, input, path, [Index(i), Key("id")]);
    var pool := Follow(cells, input, path);
    assert [Index(i), Key("id")][1..] == [Key("id")] && [Key("id")][1..] == [];
    if pool.Some? && Step(cells, pool.value, Index(i)).Some? {
      var item := Step(cells, pool.value, Index(i)).value;
      assert ["id"][1..] == [];
      DotFollows(cells, item, ["id"]);
      assert Keys(["id"]) == [Key("id")];
    }
  }

  method CollectPool(cells: Cells, input: Value, target: string) returns (ids: set<string>)
    requires WellFormed(cells) && Fits(cells, input)
    ensures ids == PoolOf(cells, input, target)
  {
    ids := {};
    var pool := Dot(cells, input, Split(target));
    if pool.Array? {
      var items := cells[pool.addr].items;
      var i := 0;
      while i < |items|
        invariant 0 <= i <= |items|
        invariant ids == set k, id | 0 <= k < i && id in ItemId(cells, items[k]) :: id
      {
        ids := ids + ItemId(cells, items[i]);
        i := i + 1;
      }
    }
  }

  method FromInput(s: Schema, cells: Cells, input: Value) returns (pools: Pools)
    requires WellFormed(cells) && Fits(cells, input)
    ensures pools == PoolsOf(s, cells, input)
  {
    pools := map[];
    var rest := s.refTargets;
    while rest != {}
      invariant rest <= s.refTargets
      invariant pools == map target | target in s.refTargets - rest :: PoolOf(cells, input, target)
    {
      var target :| target in rest;
      var pool := CollectPool(cells, input, target);
      pools := pools[target := pool];
      rest := rest - {target};
    }
    assert s.refTargets - {} == s.refTargets;
  }

  // ---------------------------------------------------------------- the errors of an input

  ghost function EntityErrors(s: Schema, pools: Pools, cells: Cells, v: Value, name: string, path: seq<Segment>,
      depth: nat): set<InputError>
    requires WellFormed(cells) && Fits(cells, v)
    decreases MAX_RECURSION_DEPTH - depth, 1
  {
    if depth >= MAX_RECURSION_DEPTH then {InputError(path, ShallowNesting, GotDeeper)}
    else if !v.Object? then {InputError(path, EntityObject(name), GotType(TypeOf(v)))}
    else if name !in s.entities then {}
    else
      var entries := cells[v.addr].entries;
      set k, e | k in entries && e in EntryErrors(s, pools, cells, s.entities[name], k, entries[k], path, depth) :: e
  }

  /** An entry of an entity; null values and names that are no properties are ignored. */
  ghost function EntryErrors(s: Schema, pools: Pools, cells: Cells, props: seq<Property>, key: string, v: Value,
      path: seq<Segment>, depth: nat)
    : set<InputError>
    requires WellFormed(cells) && Fits(cells, v) && depth < MAX_RECURSION_DEPTH
    decreases MAX_RECURSION_DEPTH - depth, 0
  {
    if v == Null || !HasProperty(props, key) then {}
    else PropertyErrors(s, pools, cells, v, PropertyOf(props, key), path + [Key(key)], depth + 1)
  }

  ghost function PropertyErrors(s: Schema, pools: Pools, cells: Cells, v: Value, prop: Property, path: seq<Segment>,
      depth: nat): set<InputError>
    requires WellFormed(cells) && Fits(cells, v)
    decreases MAX_RECURSION_DEPTH - depth, 4
  {
    if !prop.isArray then KindErrors(s, pools, cells, v, prop.kind, path, depth)
    else if !v.Array? then {InputError(path, ArrayOfKind(prop.kind), GotType(TypeOf(v)))}
    else KindItemErrors(s, pools, cells, cells[v.addr].items, |cells[v.addr].items|, prop.kind, path, depth)
  }

  /** The errors of the first n items. */
  ghost function KindItemErrors(s: Schema, pools: Pools, cells: Cells, items: seq<Value>, n: nat, kind: Kind,
      path: seq<Segment>, depth: nat)
    : set<InputError>
    requires WellFormed(cells) && CellFits(cells, ArrayCell(items)) && n <= |items|
    decreases MAX_RECURSION_DEPTH - depth, 3
  {
    set i, e | 0 <= i < n && items[i] != Null &&
      e in KindErrors(s, pools, cells, items[i], kind, path + [Index(i)], depth) :: e
  }

  ghost function KindErrors(s: Schema, pools: Pools, cells: Cells, v: Value, kind: Kind, path: seq<Segment>,
      depth: nat): set<InputError>
    requires WellFormed(cells) && Fits(cells, v)
    decreases MAX_RECURSION_DEPTH - depth, 2
  {
    match kind
    case StringKind => if v.String? then {} else WrongKind(v, kind, path)
    case DateKind => if v.String? then {} else WrongKind(v, kind, path)
    case NumberKind => if v.Number? then {} else WrongKind(v, kind, path)
    case BooleanKind => if v.Bool? then {} else WrongKind(v, kind, path)
    case EnumKind(values) => EnumErrors(v, values, path)
    case ReferenceKind(target) => ReferenceErrors(pools, v, target, path)
    case RelationshipKind(target) =>
      if IsDictionary(s, target) then EnumErrors(v, s.dictionaries[target], path)
      else EntityErrors(s, pools, cells, v, target, path, depth)
  }

  ghost function WrongKind(v: Value, kind: Kind, path: seq<Segment>): set<InputError> {
    {InputError(path, OfKind(kind), GotType(TypeOf(v)))}
  }

  ghost function EnumErrors(v: Value, values: seq<string>, path: seq<Segment>): set<InputError> {
    if !v.String? then {InputError(path, OneOf(values), GotType(TypeOf(v)))}
    else if v.s in values then {}
    else {InputError(path, OneOf(values), GotText(v.s))}
  }

  ghost function ReferenceErrors(pools: Pools, v: Value, target: string, path: seq<Segment>): set<InputError> {
    if !v.String? then {InputError(path, ReferenceId(target), GotType(TypeOf(v)))}
    else if target in pools && v.s in pools[target] then {}
    else {InputError(path, PooledId(target), GotUnknownId(v.s))}
  }

  ghost function EntityArrayErrors(s: Schema, pools: Pools, cells: Cells, v: Value, name: string,
      path: seq<Segment>, depth: nat): set<InputError>
    requires WellFormed(cells) && Fits(cells, v)
  {
    if !v.Array? then {InputError(path, ArrayOfEntity(name), GotType(TypeOf(v)))}
    else EntityItemErrors(s, pools, cells, cells[v.addr].items, |cells[v.addr].items|, name, path, depth)
  }

  /** The errors of the first n items. */
  ghost function EntityItemErrors(s: Schema, pools: Pools, cells: Cells, items: seq<Value>, n: nat, name: string,
      path: seq<Segment>, depth: nat)
    : set<InputError>
    requires WellFormed(cells) && CellFits(cells, ArrayCell(items)) && n <= |items|
  {
    set i, e | 0 <= i < n && items[i] != Null &&
      e in EntityErrors(s, pools, cells, items[i], name, path + [Index(i)], depth) :: e
  }

  ghost function TopErrors(s: Schema, pools: Pools, cells: Cells, key: string, v: Value): set<InputError>
    requires WellFormed(cells) && Fits(cells, v)
  {
    if key in s.refTargets then EntityArrayErrors(s, pools, cells, v, key, [Key(key)], 0)
    else if key in s.roots then EntityErrors(s, pools, cells, v, key, [Key(key)], 0)
    else if key in s.globals then PropertyErrors(s, pools, cells, v, s.globals[key], [Key(key)], 0)
    else {}
  }

  ghost function InputErrors(s: Schema, cells: Cells, input: Value): set<InputError>
    requires WellFormed(cells) && Fits(cells, input)
  {
    if input == Null then {}
    else if !input.Object? then {InputError([], AnyObject, GotType(TypeOf(input)))}
    else
      var entries := cells[input.addr].entries;
      set k, e | k in entries && entries[k] != Null &&
        e in TopErrors(s, PoolsOf(s, cells, input), cells, k, entries[k]) :: e
  }

  // ---------------------------------------------------------------- no errors exactly if it conforms

  lemma {:induction false} NoEntityErrors(s: Schema, pools: Pools, cells: Cells, v: Value, name: string,
      path: seq<Segment>, depth: nat)
    requires WellFormed(cells) && Fits(cells, v) && depth <= MAX_RECURSION_DEPTH
    ensures EntityErrors(s, pools, cells, v, name, path, depth) == {} <==>
      ConformsToEntity(s, pools, cells, v, name, MAX_RECURSION_DEPTH - depth)
    decreases MAX_RECURSION_DEPTH - depth, 0
  {
    if depth < MAX_RECURSION_DEPTH && v.Object? && name in s.entities {
      var entries, props := cells[v.addr].entries, s.entities[name];
      forall k | k in entries && entries[k] != Null && HasProperty(props, k)
        ensures EntryErrors(s, pools, cells, props, k, entries[k], path, depth) == {} <==>
          ConformsToProperty(s, pools, cells, entries[k], PropertyOf(props, k), MAX_RECURSION_DEPTH - depth - 1)
      {
        NoPropertyErrors(s, pools, cells, entries[k], PropertyOf(props, k), path + [Key(k)], depth + 1);
      }
      forall k, e | k in entries && e in EntryErrors(s, pools, cells, props, k, entries[k], path, depth)
        ensures e in EntityErrors(s, pools, cells, v, name, path, depth)
      {
      }
    }
  }

  lemma {:induction false} NoPropertyErrors(s: Schema, pools: Pools, cells: Cells, v: Value, prop: Property,
      path: seq<Segment>, depth: nat)
    requires WellFormed(cells) && Fits(cells, v) && depth <= MAX_RECURSION_DEPTH
    ensures PropertyErrors(s, pools, cells, v, prop, path, depth) == {} <==>
      ConformsToProperty(s, pools, cells, v, prop, MAX_RECURSION_DEPTH - depth)
    decreases MAX_RECURSION_DEPTH - depth, 2
  {
    if !prop.isArray {
      NoKindErrors(s, pools, cells, v, prop.kind, path, depth);
    } else if v.Array? {
      var items := cells[v.addr].items;
      forall i | 0 <= i < |items| && items[i] != Null
        ensures KindErrors(s, pools, cells, items[i], prop.kind, path + [Index(i)], depth) == {} <==>
          ConformsToKind(s, pools, cells, items[i], prop.kind, MAX_RECURSION_DEPTH - depth)
      {
        NoKindErrors(s, pools, cells, items[i], prop.kind, path + [Index(i)], depth);
      }
      forall i, e | 0 <= i < |items| && items[i] != Null &&
                    e in KindErrors(s, pools, cells, items[i], prop.kind, path + [Index(i)], depth)
        ensures e in PropertyErrors(s, pools, cells, v, prop, path, depth)
      {
      }
    }
  }

  lemma {:induction false} NoKindErrors(s: Schema, pools: Pools, cells: Cells, v: Value, kind: Kind,
      path: seq<Segment>, depth: nat)
    requires WellFormed(cells) && Fits(cells, v) && depth <= MAX_RECURSION_DEPTH
    ensures KindErrors(s, pools, cells, v, kind, path, depth) == {} <==>
      ConformsToKind(s, pools, cells, v, kind, MAX_RECURSION_DEPTH - depth)
    decreases MAX_RECURSION_DEPTH - depth, 1
  {
    if kind.RelationshipKind? && !IsDictionary(s, kind.target) {
      NoEntityErrors(s, pools, cells, v, kind.target, path, depth);
    }
  }

  lemma NoTopErrors(s: Schema, pools: Pools, cells: Cells, key: string, v: Value)
    requires WellFormed(cells) && Fits(cells, v)
    ensures TopErrors(s, pools, cells, key, v) == {} <==> ConformsAtTop(s, pools, cells, key, v)
  {
    if key in s.refTargets {
      if v.Array? {
        var items := cells[v.addr].items;
        forall i | 0 <= i < |items| && items[i] != Null
          ensures EntityErrors(s, pools, cells, items[i], key, [Key(key)] + [Index(i)], 0) == {} <==>
            ConformsToEntity(s, pools, cells, items[i], key, MAX_RECURSION_DEPTH)
        {
          NoEntityErrors(s, pools, cells, items[i], key, [Key(key)] + [Index(i)], 0);
        }
        forall i, e | 0 <= i < |items| && items[i] != Null &&
                      e in EntityErrors(s, pools, cells, items[i], key, [Key(key)] + [Index(i)], 0)
          ensures e in TopErrors(s, pools, cells, key, v)
        {
        }
      }
    } else if key in s.roots {
      NoEntityErrors(s, pools, cells, v, key, [Key(key)], 0);
    } else if key in s.globals {
      NoPropertyErrors(s, pools, cells, v, s.globals[key], [Key(key)], 0);
    }
  }

  /** No errors exactly if the input conforms. */
  lemma NoErrorsIffConforms(s: Schema, cells: Cells, input: Value)
    requires WellFormed(cells) && Fits(cells, input)
    ensures InputErrors(s, cells, input) == {} <==> Conforms(s, cells, input)
  {
    if input.Object? {
      var entries, pools := cells[input.addr].entries, PoolsOf(s, cells, input);
      forall k | k in entries && entries[k] != Null
        ensures TopErrors(s, pools, cells, k, entries[k]) == {} <==> ConformsAtTop(s, pools, cells, k, entries[k])
      {
        NoTopErrors(s, pools, cells, k, entries[k]);
      }
      forall k, e | k in entries && entries[k] != Null && e in TopErrors(s, pools, cells, k, entries[k])
        ensures e in InputErrors(s, cells, input)
      {
      }
    }
  }

  // ---------------------------------------------------------------- errors by their places

  /** What a schema wants at a place; levels counts the entities around it. */
  datatype Demand =
    | Top
    | EntityList(entity: string)
    | AnEntity(entity: string, levels: nat)
    | KindList(kind: Kind, levels: nat)
    | AKind(kind: Kind, levels: nat)

  function DemandOf(prop: Property, levels: nat): Demand {
    if prop.isArray then KindList(prop.kind, levels) else AKind(prop.kind, levels)
  }

  /** What an entity in so many others wants of an entry. */
  function DemandInEntity(s: Schema, entity: string, levels: nat, name: string): Option<Demand> {
    if levels < 32 && entity in s.entities && HasProperty(s.entities[entity], name) then
      Some(DemandOf(PropertyOf(s.entities[entity], name), levels + 1))
    else None
  }

  /** What the schema wants one step further, if anything. */
  function DemandAfter(s: Schema, d: Demand, step: Segment): Option<Demand> {
    match (d, step)
    case (Top, Key(name)) =>
      if name in s.refTargets then Some(EntityList(name))
      else if name in s.roots then Some(AnEntity(name, 0))
      else if name in s.globals then Some(DemandOf(s.globals[name], 0))
      else None
    case (EntityList(entity), Index(_)) => Some(AnEntity(entity, 0))
    case (KindList(kind, levels), Index(_)) => Some(AKind(kind, levels))
    case (AnEntity(entity, levels), Key(name)) => DemandInEntity(s, entity, levels, name)
    case (AKind(RelationshipKind(entity), levels), Key(name)) =>
      if IsDictionary(s, entity) then None else DemandInEntity(s, entity, levels, name)
    case _ => None
  }

  /** What the schema wants at the end of a path. */
  function DemandAt(s: Schema, d: Demand, path: seq<Segment>): Option<Demand>
    decreases |path|
  {
    if path == [] then Some(d)
    else
      match DemandAfter(s, d, path[0])
      case None => None
      case Some(next) => DemandAt(s, next, path[1..])
  }

  /** What is wrong with the value itself, with what it should be and what it is. */
  function Wrong(s: Schema, pools: Pools, v: Value, d: Demand): Option<(Expected, Got)> {
    match d
    case Top => if v.Object? then None else Some((AnyObject, GotType(TypeOf(v))))
    case EntityList(entity) => if v.Array? then None else Some((ArrayOfEntity(entity), GotType(TypeOf(v))))
    case KindList(kind, _) => if v.Array? then None else Some((ArrayOfKind(kind), GotType(TypeOf(v))))
    case AnEntity(entity, levels) => WrongEntity(v, entity, levels)
    case AKind(StringKind, _) => if v.String? then None else Some((OfKind(StringKind), GotType(TypeOf(v))))
    case AKind(DateKind, _) => if v.String? then None else Some((OfKind(DateKind), GotType(TypeOf(v))))
    case AKind(NumberKind, _) => if v.Number? then None else Some((OfKind(NumberKind), GotType(TypeOf(v))))
    case AKind(BooleanKind, _) => if v.Bool? then None else Some((OfKind(BooleanKind), GotType(TypeOf(v))))
    case AKind(EnumKind(values), _) => WrongText(v, values)
    case AKind(ReferenceKind(target), _) =>
      if !v.String? then Some((ReferenceId(target), GotType(TypeOf(v))))
      else if target in pools && v.s in pools[target] then None
      else Some((PooledId(target), GotUnknownId(v.s)))
    case AKind(RelationshipKind(target), levels) =>
      if IsDictionary(s, target) then WrongText(v, s.dictionaries[target]) else WrongEntity(v, target, levels)
  }

  function WrongEntity(v: Value, entity: string, levels: nat): Option<(Expected, Got)> {
    if levels >= 32 then Some((ShallowNesting, GotDeeper))
    else if v.Object? then None
    else Some((EntityObject(entity), GotType(TypeOf(v))))
  }

  function WrongText(v: Value, values: seq<string>): Option<(Expected, Got)> {
    if !v.String? then Some((OneOf(values), GotType(TypeOf(v))))
    else if v.s in values then None
    else Some((OneOf(values), GotText(v.s)))
  }

  /** An error tells what the value is, and that is not what was expected. */
  lemma WrongTells(s: Schema, pools: Pools, v: Value, d: Demand)
    requires Wrong(s, pools, v, d).Some?
    ensures var (expected, got) := Wrong(s, pools, v, d).value;
      && (got == GotType(NullType) <==> v.Null? && got.GotType?)
      && (got == GotType(BoolType) <==> v.Bool? && got.GotType?)
      && (got == GotType(NumberType) <==> v.Number? && got.GotType?)
      && (got == GotType(StringType) <==> v.String? && got.GotType?)
      && (got == GotType(ArrayType) <==> v.Array? && got.GotType?)
      && (got == GotType(ObjectType) <==> v.Object? && got.GotType?)
      && (got.GotText? ==> v == String(got.s)) && (got.GotUnknownId? ==> v == String(got.s))
      && match expected
         case AnyObject => d.Top? && !v.Object?
         case EntityObject(_) => !v.Object?
         case ShallowNesting => got == GotDeeper && (d.AnEntity? || d.AKind?) && d.levels >= 32
         case ArrayOfKind(kind) => !v.Array? && d.KindList? && d.kind == kind
         case ArrayOfEntity(entity) => !v.Array? && d == EntityList(entity)
         case OneOf(values) => !v.String? || v.s !in values
         case ReferenceId(target) => !v.String?
         case PooledId(target) => v.String? && (target !in pools || v.s !in pools[target])
         case OfKind(StringKind) => d.AKind? && d.kind == StringKind && !v.String?
         case OfKind(DateKind) => d.AKind? && d.kind == DateKind && !v.String?
         case OfKind(NumberKind) => d.AKind? && d.kind == NumberKind && !v.Number?
         case OfKind(BooleanKind) => d.AKind? && d.kind == BooleanKind && !v.Bool?
         case OfKind(_) => false
  {
  }

  /** The value at the end of the path is wrong in this way. */
  predicate ErrorAt(s: Schema, pools: Pools, cells: Cells, v: Value, d: Demand, path: seq<Segment>, e: InputError)
    requires WellFormed(cells) && Fits(cells, v)
  {
    var at, demand := Follow(cells, v, path), DemandAt(s, d, path);
    && at.Some? && at.value != Null && demand.Some?
    && Wrong(s, pools, at.value, demand.value) == Some((e.expected, e.got))
  }

  /** The error is below the path, at the rest of its own. */
  predicate ErrorBelow(s: Schema, pools: Pools, cells: Cells, v: Value, d: Demand, path: seq<Segment>, e: InputError)
    requires WellFormed(cells) && Fits(cells, v)
  {
    path <= e.path && ErrorAt(s, pools, cells, v, d, e.path[|path|..], e)
  }

  /** An error below a place is at the place itself or one step further. */
  lemma OneStepBelow(s: Schema, pools: Pools, cells: Cells, v: Value, d: Demand, path: seq<Segment>, e: InputError)
    requires WellFormed(cells) && Fits(cells, v) && v != Null
    ensures ErrorBelow(s, pools, cells, v, d, path, e) <==>
      || (e.path == path && Wrong(s, pools, v, d) == Some((e.expected, e.got)))
      || (path < e.path &&
          var step := e.path[|path|];
          Step(cells, v, step).Some? && DemandAfter(s, d, step).Some? &&
          ErrorBelow(s, pools, cells, Step(cells, v, step).value, DemandAfter(s, d, step).value, path + [step], e))
  {
    if path < e.path {
      RestOfPath(path, e.path);
    } else if path <= e.path {
      assert e.path == path;
    }
  }

  lemma RestOfPath(path: seq<Segment>, whole: seq<Segment>)
    requires path < whole
    ensures var step := whole[|path|];
      && path + [step] <= whole && whole != path
      && whole[|path|..] != [] && whole[|path|..][0] == step && whole[|path|..][1..] == whole[|path + [step]|..]
  {
  }

  lemma {:induction false} EntityErrorsBelow(s: Schema, pools: Pools, cells: Cells, v: Value, name: string,
      path: seq<Segment>, depth: nat, e: InputError)
    requires WellFormed(cells) && Fits(cells, v) && v != Null && depth <= 32
    ensures e in EntityErrors(s, pools, cells, v, name, path, depth) <==>
      ErrorBelow(s, pools, cells, v, AnEntity(name, depth), path, e)
    decreases MAX_RECURSION_DEPTH - depth, 0
  {
    OneStepBelow(s, pools, cells, v, AnEntity(name, depth), path, e);
    if depth < 32 && v.Object? && name in s.entities {
      EntriesBelow(s, pools, cells, v, name, path, depth, e);
    }
  }

  lemma {:induction false} EntriesBelow(s: Schema, pools: Pools, cells: Cells, v: Value, name: string,
      path: seq<Segment>, depth: nat, e: InputError)
    requires WellFormed(cells) && Fits(cells, v) && v.Object? && depth < 32 && name in s.entities
    ensures e in EntityErrors(s, pools, cells, v, name, path, depth) <==>
      path < e.path && e.path[|path|].Key? &&
      var key := e.path[|path|];
      Step(cells, v, key).Some? && DemandInEntity(s, name, depth, key.name).Some? &&
      ErrorBelow(s, pools, cells, Step(cells, v, key).value, DemandInEntity(s, name, depth, key.name).value,
                 path + [key], e)
    decreases MAX_RECURSION_DEPTH - depth - 1, 4
  {
    var entries, props := cells[v.addr].entries, s.entities[name];
    forall k | k in entries && HasProperty(props, k)
      ensures entries[k] != Null ==> (e in EntryErrors(s, pools, cells, props, k, entries[k], path, depth) <==>
        ErrorBelow(s, pools, cells, entries[k], DemandOf(PropertyOf(props, k), depth + 1), path + [Key(k)], e))
      ensures entries[k] == Null ==>
        !ErrorBelow(s, pools, cells, entries[k], DemandOf(PropertyOf(props, k), depth + 1), path + [Key(k)], e)
    {
      if entries[k] != Null {
        PropertyErrorsBelow(s, pools, cells, entries[k], PropertyOf(props, k), path + [Key(k)], depth + 1, e);
      } else {
        NothingBelowNull(s, pools, cells, DemandOf(PropertyOf(props, k), depth + 1), path + [Key(k)], e);
      }
    }
    if e in EntityErrors(s, pools, cells, v, name, path, depth) {
      var k :| k in entries && e in EntryErrors(s, pools, cells, props, k, entries[k], path, depth);
      assert e.path[|path|] == Key(k);
    }
  }

  lemma NothingBelowNull(s: Schema, pools: Pools, cells: Cells, d: Demand, path: seq<Segment>, e: InputError)
    requires WellFormed(cells)
    ensures !ErrorBelow(s, pools, cells, Null, d, path, e)
  {
  }

  lemma {:induction false} PropertyErrorsBelow(s: Schema, pools: Pools, cells: Cells, v: Value, prop: Property,
      path: seq<Segment>, depth: nat, e: InputError)
    requires WellFormed(cells) && Fits(cells, v) && v != Null && depth <= 32
    ensures e in PropertyErrors(s, pools, cells, v, prop, path, depth) <==>
      ErrorBelow(s, pools, cells, v, DemandOf(prop, depth), path, e)
    decreases MAX_RECURSION_DEPTH - depth, 3
  {
    if !prop.isArray {
      KindErrorsBelow(s, pools, cells, v, prop.kind, path, depth, e);
    } else {
      OneStepBelow(s, pools, cells, v, KindList(prop.kind, depth), path, e);
      if v.Array? {
        KindItemsBelow(s, pools, cells, v, prop.kind, path, depth, e);
      }
    }
  }

  lemma {:induction false} KindItemsBelow(s: Schema, pools: Pools, cells: Cells, v: Value, kind: Kind,
      path: seq<Segment>, depth: nat, e: InputError)
    requires WellFormed(cells) && Fits(cells, v) && v.Array? && depth <= 32
    ensures e in KindItemErrors(s, pools, cells, cells[v.addr].items, |cells[v.addr].items|, kind, path, depth) <==>
      path < e.path && e.path[|path|].Index? && Step(cells, v, e.path[|path|]).Some? &&
      ErrorBelow(s, pools, cells, Step(cells, v, e.path[|path|]).value, AKind(kind, depth), path + [e.path[|path|]], e)
    decreases MAX_RECURSION_DEPTH - depth, 2
  {
    var items := cells[v.addr].items;
    forall i: nat | i < |items|
      ensures items[i] != Null ==> (e in KindErrors(s, pools, cells, items[i], kind, path + [Index(i)], depth) <==>
        ErrorBelow(s, pools, cells, items[i], AKind(kind, depth), path + [Index(i)], e))
      ensures items[i] == Null ==> !ErrorBelow(s, pools, cells, items[i], AKind(kind, depth), path + [Index(i)], e)
    {
      if items[i] != Null {
        KindErrorsBelow(s, pools, cells, items[i], kind, path + [Index(i)], depth, e);
      } else {
        NothingBelowNull(s, pools, cells, AKind(kind, depth), path + [Index(i)], e);
      }
    }
    if e in KindItemErrors(s, pools, cells, items, |items|, kind, path, depth) {
      var i: nat :| i < |items| && items[i] != Null &&
        e in KindErrors(s, pools, cells, items[i], kind, path + [Index(i)], depth);
      assert e.path[|path|] == Index(i);
    }
  }

  lemma {:induction false} KindErrorsBelow(s: Schema, pools: Pools, cells: Cells, v: Value, kind: Kind,
      path: seq<Segment>, depth: nat, e: InputError)
    requires WellFormed(cells) && Fits(cells, v) && v != Null && depth <= 32
    ensures e in KindErrors(s, pools, cells, v, kind, path, depth) <==>
      ErrorBelow(s, pools, cells, v, AKind(kind, depth), path, e)
    decreases MAX_RECURSION_DEPTH - depth, 1
  {
    OneStepBelow(s, pools, cells, v, AKind(kind, depth), path, e);
    if kind.RelationshipKind? && !IsDictionary(s, kind.target) {
      OneStepBelow(s, pools, cells, v, AnEntity(kind.target, depth), path, e);
      EntityErrorsBelow(s, pools, cells, v, kind.target, path, depth, e);
    }
  }

  lemma EntityListBelow(s: Schema, pools: Pools, cells: Cells, v: Value, name: string, path: seq<Segment>,
      e: InputError)
    requires WellFormed(cells) && Fits(cells, v) && v != Null
    ensures e in EntityArrayErrors(s, pools, cells, v, name, path, 0) <==>
      ErrorBelow(s, pools, cells, v, EntityList(name), path, e)
  {
    OneStepBelow(s, pools, cells, v, EntityList(name), path, e);
    if v.Array? {
      EntityItemsBelow(s, pools, cells, v, name, path, e);
    }
  }

  lemma EntityItemsBelow(s: Schema, pools: Pools, cells: Cells, v: Value, name: string, path: seq<Segment>,
      e: InputError)
    requires WellFormed(cells) && Fits(cells, v) && v.Array?
    ensures e in EntityItemErrors(s, pools, cells, cells[v.addr].items, |cells[v.addr].items|, name, path, 0) <==>
      path < e.path && e.path[|path|].Index? && Step(cells, v, e.path[|path|]).Some? &&
      ErrorBelow(s, pools, cells, Step(cells, v, e.path[|path|]).value, AnEntity(name, 0), path + [e.path[|path|]], e)
  {
    var items := cells[v.addr].items;
    forall i: nat | i < |items|
      ensures items[i] != Null ==> (e in EntityErrors(s, pools, cells, items[i], name, path + [Index(i)], 0) <==>
        ErrorBelow(s, pools, cells, items[i], AnEntity(name, 0), path + [Index(i)], e))
      ensures items[i] == Null ==> !ErrorBelow(s, pools, cells, items[i], AnEntity(name, 0), path + [Index(i)], e)
    {
      if items[i] != Null {
        EntityErrorsBelow(s, pools, cells, items[i], name, path + [Index(i)], 0, e);
      } else {
        NothingBelowNull(s, pools, cells, AnEntity(name, 0), path + [Index(i)], e);
      }
    }
    if e in EntityItemErrors(s, pools, cells, items, |items|, name, path, 0) {
      var i: nat :| i < |items| && items[i] != Null &&
        e in EntityErrors(s, pools, cells, items[i], name, path + [Index(i)], 0);
      assert e.path[|path|] == Index(i);
    }
  }

  lemma TopErrorsBelow(s: Schema, pools: Pools, cells: Cells, key: string, v: Value, e: InputError)
    requires WellFormed(cells) && Fits(cells, v) && v != Null
    ensures e in TopErrors(s, pools, cells, key, v) <==>
      DemandAfter(s, Top, Key(key)).Some? &&
      ErrorBelow(s, pools, cells, v, DemandAfter(s, Top, Key(key)).value, [Key(key)], e)
  {
    if key in s.refTargets {
      EntityListBelow(s, pools, cells, v, key, [Key(key)], e);
    } else if key in s.roots {
      EntityErrorsBelow(s, pools, cells, v, key, [Key(key)], 0, e);
    } else if key in s.globals {
      PropertyErrorsBelow(s, pools, cells, v, s.globals[key], [Key(key)], 0, e);
    }
  }

  /** The value that the path of the error leads to is not what the schema wants at the end of that path. */
  ghost predicate InPlace(s: Schema, cells: Cells, input: Value, e: InputError)
    requires WellFormed(cells) && Fits(cells, input)
  {
    var at, demand := Follow(cells, input, e.path), DemandAt(s, Top, e.path);
    && at.Some? && at.value != Null && demand.Some?
    && Wrong(s, PoolsOf(s, cells, input), at.value, demand.value) == Some((e.expected, e.got))
  }

  /** The errors are exactly what is wrong at the places that the schema speaks of, each with its own path. */
  lemma ErrorsByPlace(s: Schema, cells: Cells, input: Value, e: InputError)
    requires WellFormed(cells) && Fits(cells, input)
    ensures e in InputErrors(s, cells, input) <==> InPlace(s, cells, input, e)
  {
    var pools := PoolsOf(s, cells, input);
    assert e.path[0..] == e.path;
    assert ErrorBelow(s, pools, cells, input, Top, [], e) <==> InPlace(s, cells, input, e);
    if input != Null {
      OneStepBelow(s, pools, cells, input, Top, [], e);
      if input.Object? {
        TopEntriesBelow(s, pools, cells, input, e);
      }
    } else {
      NothingBelowNull(s, pools, cells, Top, [], e);
    }
  }

  lemma TopEntriesBelow(s: Schema, pools: Pools, cells: Cells, input: Value, e: InputError)
    requires WellFormed(cells) && Fits(cells, input) && input.Object? && pools == PoolsOf(s, cells, input)
    ensures e in InputErrors(s, cells, input) <==>
      e.path != [] && e.path[0].Key? && Step(cells, input, e.path[0]).Some? &&
      DemandAfter(s, Top, e.path[0]).Some? &&
      ErrorBelow(s, pools, cells, Step(cells, input, e.path[0]).value, DemandAfter(s, Top, e.path[0]).value,
                 [] + [e.path[0]], e)
  {
    var entries := cells[input.addr].entries;
    forall k | k in entries
      ensures [] + [Key(k)] == [Key(k)]
      ensures entries[k] != Null ==> (e in TopErrors(s, pools, cells, k, entries[k]) <==>
        DemandAfter(s, Top, Key(k)).Some? &&
        ErrorBelow(s, pools, cells, entries[k], DemandAfter(s, Top, Key(k)).value, [Key(k)], e))
      ensures entries[k] == Null && DemandAfter(s, Top, Key(k)).Some? ==>
        !ErrorBelow(s, pools, cells, entries[k], DemandAfter(s, Top, Key(k)).value, [Key(k)], e)
    {
      if entries[k] != Null {
        TopErrorsBelow(s, pools, cells, k, entries[k], e);
      } else if DemandAfter(s, Top, Key(k)).Some? {
        NothingBelowNull(s, pools, cells, DemandAfter(s, Top, Key(k)).value, [Key(k)], e);
      }
    }
    if e in InputErrors(s, cells, input) {
      var k :| k in entries && entries[k] != Null && e in TopErrors(s, pools, cells, k, entries[k]);
      assert e.path[0] == Key(k);
    }
  }

  // ---------------------------------------------------------------- the validator

  function Found(errors: seq<InputError>): set<InputError> {
    set e | e in errors
  }

  lemma FoundMore(errors: seq<InputError>, e: InputError)
    ensures Found(errors + [e]) == Found(errors) + {e}
  {
  }

  class Validator {
    const s: Schema
    const pools: Pools
    const cells: Cells
    var errors: seq<InputError>
    var depth: nat

    constructor (s: Schema, pools: Pools, cells: Cells)
      ensures this.s == s && this.pools == pools && this.cells == cells && errors == [] && depth == 0
    {
      this.s, this.pools, this.cells := s, pools, cells;
      errors, depth := [], 0;
    }

    method Push(path: seq<Segment>, expected: Expected, got: Got)
      modifies `errors
      ensures errors == old(errors) + [InputError(path, expected, got)]
      ensures Found(errors) == Found(old(errors)) + {InputError(path, expected, got)}
    {
      FoundMore(errors, InputError(path, expected, got));
      errors := errors + [InputError(path, expected, got)];
    }

    method ValidateEntity(v: Value, name: string, path: seq<Segment>)
      requires WellFormed(cells) && Fits(cells, v) && depth <= MAX_RECURSION_DEPTH
      modifies this
      ensures depth == old(depth) && old(errors) <= errors
      ensures Found(errors) == Found(old(errors)) + EntityErrors(s, pools, cells, v, name, path, depth)
      decreases MAX_RECURSION_DEPTH - depth, 0
    {
      if depth >= MAX_RECURSION_DEPTH {
        Push(path, ShallowNesting, GotDeeper);
      } else if !v.Object? {
        Push(path, EntityObject(name), GotType(TypeOf(v)));
      } else if name in s.entities {
        depth := depth + 1;
        ValidateEntries(cells[v.addr].entries, s.entities[name], path);
        depth := depth - 1;
      }
    }

    /** The entries of an entity, in any order. */
    method ValidateEntries(entries: map<string, Value>, props: seq<Property>, path: seq<Segment>)
      requires WellFormed(cells) && CellFits(cells, ObjectCell(entries)) && 0 < depth <= MAX_RECURSION_DEPTH
      modifies this
      ensures depth == old(depth) && old(errors) <= errors
      ensures Found(errors) == Found(old(errors)) + EntriesErrors(entries.Keys, entries, props, path, depth - 1)
      decreases MAX_RECURSION_DEPTH - depth, 5
    {
      var rest := entries.Keys;
      while rest != {}
        invariant rest <= entries.Keys && depth == old(depth) && old(errors) <= errors
        invariant Found(errors) ==
          Found(old(errors)) + EntriesErrors(entries.Keys - rest, entries, props, path, depth - 1)
      {
        var k :| k in rest;
        ValidateEntry(k, entries[k], props, path);
        OneMoreEntry(entries.Keys - rest, k, entries, props, path, depth - 1);
        assert entries.Keys - (rest - {k}) == entries.Keys - rest + {k};
        rest := rest - {k};
      }
      assert entries.Keys - {} == entries.Keys;
    }

    method ValidateEntry(key: string, v: Value, props: seq<Property>, path: seq<Segment>)
      requires WellFormed(cells) && Fits(cells, v) && 0 < depth <= MAX_RECURSION_DEPTH
      modifies this
      ensures depth == old(depth) && old(errors) <= errors
      ensures Found(errors) == Found(old(errors)) + EntryErrors(s, pools, cells, props, key, v, path, depth - 1)
      decreases MAX_RECURSION_DEPTH - depth, 4
    {
      if v != Null && HasProperty(props, key) {
        ValidateProperty(v, PropertyOf(props, key), path + [Key(key)]);
      }
    }

    ghost function EntriesErrors(keys: set<string>, entries: map<string, Value>, props: seq<Property>,
        path: seq<Segment>, depth: nat)
      : set<InputError>
      requires WellFormed(cells) && CellFits(cells, ObjectCell(entries)) && keys <= entries.Keys &&
        depth < MAX_RECURSION_DEPTH
    {
      set k, e | k in keys && e in EntryErrors(s, pools, cells, props, k, entries[k], path, depth) :: e
    }

    lemma OneMoreEntry(keys: set<string>, k: string, entries: map<string, Value>, props: seq<Property>,
        path: seq<Segment>, depth: nat)
      requires WellFormed(cells) && CellFits(cells, ObjectCell(entries)) && keys <= entries.Keys && k in entries &&
        depth < MAX_RECURSION_DEPTH
      ensures EntriesErrors(keys + {k}, entries, props, path, depth)
        == EntriesErrors(keys, entries, props, path, depth)
           + EntryErrors(s, pools, cells, props, k, entries[k], path, depth)
    {
    }

    /** A property, or a global. */
    method ValidateProperty(v: Value, prop: Property, path: seq<Segment>)
      requires WellFormed(cells) && Fits(cells, v) && depth <= MAX_RECURSION_DEPTH
      modifies this
      ensures depth == old(depth) && old(errors) <= errors
      ensures Found(errors) == Found(old(errors)) + PropertyErrors(s, pools, cells, v, prop, path, depth)
      decreases MAX_RECURSION_DEPTH - depth, 3
    {
      if prop.isArray {
        ValidateArrayOfProperty(v, prop, path);
      } else {
        ValidateKind(v, prop.kind, path);
      }
    }

    method ValidateArrayOfProperty(v: Value, prop: Property, path: seq<Segment>)
      requires WellFormed(cells) && Fits(cells, v) && depth <= MAX_RECURSION_DEPTH && prop.isArray
      modifies this
      ensures depth == old(depth) && old(errors) <= errors
      ensures Found(errors) == Found(old(errors)) + PropertyErrors(s, pools, cells, v, prop, path, depth)
      decreases MAX_RECURSION_DEPTH - depth, 2
    {
      if !v.Array? {
        Push(path, ArrayOfKind(prop.kind), GotType(TypeOf(v)));
        return;
      }
      var items := cells[v.addr].items;
      var i := 0;
      while i < |items|
        invariant 0 <= i <= |items| && depth == old(depth) && old(errors) <= errors
        invariant Found(errors) ==
          Found(old(errors)) + KindItemErrors(s, pools, cells, items, i, prop.kind, path, depth)
      {
        if items[i] != Null {
          ValidateKind(items[i], prop.kind, path + [Index(i)]);
        }
        i := i + 1;
      }
    }

    method ValidateArrayOfEntity(v: Value, name: string, path: seq<Segment>)
      requires WellFormed(cells) && Fits(cells, v) && depth <= MAX_RECURSION_DEPTH
      modifies this
      ensures depth == old(depth) && old(errors) <= errors
      ensures Found(errors) == Found(old(errors)) + EntityArrayErrors(s, pools, cells, v, name, path, depth)
    {
      if !v.Array? {
        Push(path, ArrayOfEntity(name), GotType(TypeOf(v)));
        return;
      }
      var items := cells[v.addr].items;
      var i := 0;
      while i < |items|
        invariant 0 <= i <= |items| && depth == old(depth) && old(errors) <= errors
        invariant Found(errors) == Found(old(errors)) + EntityItemErrors(s, pools, cells, items, i, name, path, depth)
      {
        if items[i] != Null {
          ValidateEntity(items[i], name, path + [Index(i)]);
        }
        i := i + 1;
      }
    }

    method ValidateKind(v: Value, kind: Kind, path: seq<Segment>)
      requires WellFormed(cells) && Fits(cells, v) && depth <= MAX_RECURSION_DEPTH
      modifies this
      ensures depth == old(depth) && old(errors) <= errors
      ensures Found(errors) == Found(old(errors)) + KindErrors(s, pools, cells, v, kind, path, depth)
      decreases MAX_RECURSION_DEPTH - depth, 1
    {
      var ok := true;
      match kind {
        case StringKind => ok := v.String?;
        case EnumKind(values) => ValidateEnum(v, values, path);
        case NumberKind => ok := v.Number?;
        case BooleanKind => ok := v.Bool?;
        case DateKind => ok := v.String?;
        case ReferenceKind(target) => ValidateReference(v, target, path);
        case RelationshipKind(target) =>
          if target !in s.entities && target in s.dictionaries {
            ValidateEnum(v, s.dictionaries[target], path);
          } else {
            ValidateEntity(v, target, path);
          }
      }
      if !ok {
        Push(path, OfKind(kind), GotType(TypeOf(v)));
      }
    }

    method ValidateEnum(v: Value, values: seq<string>, path: seq<Segment>)
      modifies `errors
      ensures old(errors) <= errors && Found(errors) == Found(old(errors)) + EnumErrors(v, values, path)
    {
      if !v.String? {
        Push(path, OneOf(values), GotType(TypeOf(v)));
      } else if v.s !in values {
        Push(path, OneOf(values), GotText(v.s));
      }
    }

    method ValidateReference(v: Value, target: string, path: seq<Segment>)
      modifies `errors
      ensures old(errors) <= errors && Found(errors) == Found(old(errors)) + ReferenceErrors(pools, v, target, path)
    {
      if !v.String? {
        Push(path, ReferenceId(target), GotType(TypeOf(v)));
      } else if !(target in pools && v.s in pools[target]) {
        Push(path, PooledId(target), GotUnknownId(v.s));
      }
    }

    /** A top-level entry of the input. */
    method ValidateTop(key: string, v: Value)
      requires WellFormed(cells) && Fits(cells, v) && depth == 0
      modifies this
      ensures depth == 0 && old(errors) <= errors
      ensures Found(errors) == Found(old(errors)) + TopErrors(s, pools, cells, key, v)
    {
      if key in s.refTargets {
        ValidateArrayOfEntity(v, key, [Key(key)]);
      } else if key in s.roots {
        ValidateEntity(v, key, [Key(key)]);
      } else if key in s.globals {
        ValidateProperty(v, s.globals[key], [Key(key)]);
      }
    }
  }

  /** The errors reported for an input are its errors, and there are none exactly if it conforms. */
  method Validate(s: Schema, cells: Cells, input: Value) returns (errors: seq<InputError>)
    requires WellFormed(cells) && Fits(cells, input)
    ensures forall e :: e in errors <==> InPlace(s, cells, input, e)
    ensures errors == [] <==> Conforms(s, cells, input)
  {
    var pools := FromInput(s, cells, input);
    var validator := new Validator(s, pools, cells);
    NoErrorsIffConforms(s, cells, input);
    if input.Object? {
      var entries := cells[input.addr].entries;
      var rest := entries.Keys;
      while rest != {}
        invariant rest <= entries.Keys && validator.depth == 0
        invariant Found(validator.errors) == set k, e | k in entries.Keys - rest && entries[k] != Null &&
          e in TopErrors(s, pools, cells, k, entries[k]) :: e
      {
        var k :| k in rest;
        if entries[k] != Null {
          validator.ValidateTop(k, entries[k]);
        }
        rest := rest - {k};
      }
    } else if input != Null {
      validator.Push([], AnyObject, GotType(TypeOf(input)));
    }
    errors := validator.errors;
    assert Found(errors) == InputErrors(s, cells, input);
    forall e
      ensures e in errors <==> InPlace(s, cells, input, e)
    {
      ErrorsByPlace(s, cells, input, e);
      assert e in errors <==> e in Found(errors);
    }
    assert errors != [] ==> errors[0] in Found(errors);
  }
}
