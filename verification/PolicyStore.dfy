/**
 The store that all blocks of a policy share: an object of objects. A write makes the
 objects above its path where there are none, replaces what is at the path, and is
 dropped where something above is no object. So the order of two writes matters only
 where one path is above the other, and not always there.
 */
module PolicyStore {
  import opened PathOrder
  import opened Wrappers
  import opened WriterIndex

  /** A value: an object, or anything else. */
  datatype Value<+V> = Leaf(leaf: V) | Object(fields: map<string, Value<V>>)

  type Store<+V> = map<string, Value<V>>

  /** What a block writes, in order. */
  type Writes<+V> = seq<(Path, Value<V>)>

  // ---------------------------------------------------------------- the parts of a path

  /** The names between the dots. */
  function Parts(p: Path): (ps: seq<string>)
    ensures ps != []
    decreases |p|
  {
    var dot := NextDot(p, 0);
    if dot < 0 then [p] else [p[..dot]] + Parts(p[dot + 1..])
  }

  /** A name without dots is a path of one part, and with a dot after it adds one in front. */
  lemma PartsExactly(name: string, p: Path)
    requires '.' !in name
    ensures Parts(name) == [name] && Parts(name + "." + p) == [name] + Parts(p)
  {
    var q := name + "." + p;
    assert forall i :: 0 <= i < |name| ==> q[i] == name[i] && q[i] in name;
    assert q[|name|] == '.' && q[..|name|] == name && q[|name| + 1..] == p;
    assert NextDot(q, 0) == |name|;
    assert NextDot(name, 0) < 0 by {
      assert forall i :: 0 <= i < |name| ==> name[i] in name;
    }
  }

  lemma {:induction false} ExtendsIsPrefix(p: Path, q: Path)
    ensures Extends(p, q) <==> Parts(p) <= Parts(q)
    decreases |p|
  {
    var d, e := NextDot(p, 0), NextDot(q, 0);
    if d < 0 {
      assert Parts(p) == [p] && Parts(q)[0] == if e < 0 then q else q[..e];
      if Extends(p, q) {
        assert forall i :: 0 <= i < |p| ==> q[i] == p[i];
        assert e < 0 ==> q == p;
        assert e >= 0 ==> e == |p|;
      }
    } else if e < 0 {
      assert Parts(q) == [q];
    } else {
      var p', q' := p[d + 1..], q[e + 1..];
      ExtendsIsPrefix(p', q');
      PrefixAfterDot(p, q, d, e);
      PrefixOfRest(p[..d], Parts(p'), q[..e], Parts(q'));
    }
  }

  lemma PrefixOfRest(a: string, ps: seq<string>, b: string, qs: seq<string>)
    ensures [a] + ps <= [b] + qs <==> a == b && ps <= qs
  {
    if [a] + ps <= [b] + qs {
      assert ([a] + ps)[0] == ([b] + qs)[0];
      forall i | 0 <= i < |ps|
        ensures ps[i] == qs[i]
      {
        assert ([a] + ps)[i + 1] == ([b] + qs)[i + 1];
      }
    }
  }

  lemma PrefixAfterDot(p: Path, q: Path, d: nat, e: nat)
    requires d < |p| && p[d] == '.' && forall i :: 0 <= i < d ==> p[i] != '.'
    requires e < |q| && q[e] == '.' && forall i :: 0 <= i < e ==> q[i] != '.'
    ensures Extends(p, q) <==> p[..d] == q[..e] && Extends(p[d + 1..], q[e + 1..])
  {
    var p', q' := p[d + 1..], q[e + 1..];
    if Extends(p, q) {
      assert forall i :: 0 <= i < |p| ==> q[i] == p[i];
      assert d == e;
      assert q'[..|p'|] == p';
    }
    if p[..d] == q[..e] && Extends(p', q') {
      assert |p[..d]| == d && |q[..e]| == e;
      assert forall i :: 0 <= i < d ==> p[i] == p[..d][i] == q[..e][i] == q[i];
      assert forall i :: d < i < |p| ==> p[i] == p'[i - d - 1] == q'[..|p'|][i - d - 1] == q[i];
      assert q[..|p|] == p;
    }
  }

  // ---------------------------------------------------------------- writing and reading

  function Insert<V>(s: Store<V>, ps: seq<string>, v: Value<V>): Store<V>
    requires ps != []
    decreases |ps|
  {
    if |ps| == 1 then s[ps[0] := v]
    else if ps[0] !in s then s[ps[0] := Object(Insert(map[], ps[1..], v))]
    else
      match s[ps[0]]
      case Leaf(_) => s
      case Object(fields) => s[ps[0] := Object(Insert(fields, ps[1..], v))]
  }

  function Put<V>(s: Store<V>, p: Path, v: Value<V>): Store<V> {
    Insert(s, Parts(p), v)
  }

  /** What there is: nothing, a value, or something above that is no object. */
  datatype Sight<+V> = Absent | Found(value: Value<V>) | Under(leaf: V)

  function Look<V>(s: Store<V>, ps: seq<string>): Sight<V>
    requires ps != []
    decreases |ps|
  {
    if ps[0] !in s then Absent
    else if |ps| == 1 then Found(s[ps[0]])
    else
      match s[ps[0]]
      case Leaf(v) => Under(v)
      case Object(fields) => Look(fields, ps[1..])
  }

  /** Field by field: what is found, and what a write changes. */
  lemma FieldByField<V>(s: Store<V>, k: string, ps: seq<string>, v: Value<V>)
    requires ps != []
    ensures Look(s, [k]) == (if k in s then Found(s[k]) else Absent) && Insert(s, [k], v) == s[k := v]
    ensures k !in s ==>
      Look(s, [k] + ps) == Absent && Insert(s, [k] + ps, v) == s[k := Object(Insert(map[], ps, v))]
    ensures k in s && s[k].Leaf? ==> Look(s, [k] + ps) == Under(s[k].leaf) && Insert(s, [k] + ps, v) == s
    ensures k in s && s[k].Object? ==>
      && Look(s, [k] + ps) == Look(s[k].fields, ps)
      && Insert(s, [k] + ps, v) == s[k := Object(Insert(s[k].fields, ps, v))]
  {
    assert ([k] + ps)[1..] == ps;
  }

  function Get<V>(s: Store<V>, p: Path): Sight<V> {
    Look(s, Parts(p))
  }

  /** What there is in a value. */
  function LookIn<V>(v: Value<V>, ps: seq<string>): Sight<V> {
    if ps == [] then Found(v)
    else
      match v
      case Leaf(leaf) => Under(leaf)
      case Object(fields) => Look(fields, ps)
  }

  function InsertIn<V>(v: Value<V>, ps: seq<string>, u: Value<V>): Value<V> {
    if ps == [] then u
    else
      match v
      case Leaf(_) => v
      case Object(fields) => Object(Insert(fields, ps, u))
  }

  // ---------------------------------------------------------------- one write

  lemma {:induction false} LookElsewhere<V>(s: Store<V>, ps: seq<string>, v: Value<V>, qs: seq<string>)
    requires ps != [] && qs != [] && !(ps <= qs) && !(qs <= ps)
    ensures Look(Insert(s, ps, v), qs) == Look(s, qs)
    decreases |ps|
  {
    if ps[0] == qs[0] && |ps| > 1 && |qs| > 1 {
      assert ps == [ps[0]] + ps[1..] && qs == [qs[0]] + qs[1..];
      if ps[0] !in s {
        LookElsewhere(map[], ps[1..], v, qs[1..]);
      } else if s[ps[0]].Object? {
        LookElsewhere(s[ps[0]].fields, ps[1..], v, qs[1..]);
      }
    }
  }

  lemma {:induction false} LookWritten<V>(s: Store<V>, ps: seq<string>, v: Value<V>)
    requires ps != []
    ensures Look(Insert(s, ps, v), ps) == if Look(s, ps).Under? then Look(s, ps) else Found(v)
    ensures Look(s, ps).Under? ==> Insert(s, ps, v) == s
    decreases |ps|
  {
    if |ps| > 1 {
      if ps[0] !in s {
        LookWritten<V>(map[], ps[1..], v);
      } else if s[ps[0]].Object? {
        LookWritten(s[ps[0]].fields, ps[1..], v);
      }
    }
  }

  /** The object that a write into field k goes into, if it goes anywhere. */
  function Inner<V>(s: Store<V>, k: string): Option<Store<V>> {
    if k !in s then Some(map[])
    else
      match s[k]
      case Leaf(_) => None
      case Object(fields) => Some(fields)
  }

  lemma InsertInner<V>(s: Store<V>, ps: seq<string>, v: Value<V>)
    requires |ps| > 1
    ensures Insert(s, ps, v) == match Inner(s, ps[0]) {
      case None => s
      case Some(fields) => s[ps[0] := Object(Insert(fields, ps[1..], v))]
    }
    ensures Inner(Insert(s, ps, v), ps[0]) == match Inner(s, ps[0]) {
      case None => None
      case Some(fields) => Some(Insert(fields, ps[1..], v))
    }
  {
  }

  lemma InsertTwice<V>(s: Store<V>, ps: seq<string>, v: Value<V>, qs: seq<string>, u: Value<V>)
    requires |ps| > 1 && |qs| > 1 && ps[0] == qs[0]
    ensures Insert(Insert(s, ps, v), qs, u) == match Inner(s, ps[0]) {
      case None => s
      case Some(fields) => s[ps[0] := Object(Insert(Insert(fields, ps[1..], v), qs[1..], u))]
    }
  {
    InsertInner(s, ps, v);
    InsertInner(Insert(s, ps, v), qs, u);
  }

  /** A write changes one field. */
  lemma InsertOne<V>(s: Store<V>, ps: seq<string>, v: Value<V>)
    requires ps != []
    ensures var t := Insert(s, ps, v);
      t == s || (ps[0] in t && t == s[ps[0] := t[ps[0]]])
  {
  }

  lemma FieldsApart<V>(s: Store<V>, ps: seq<string>, v: Value<V>, qs: seq<string>, u: Value<V>)
    requires ps != [] && qs != [] && ps[0] != qs[0]
    ensures Insert(Insert(s, ps, v), qs, u) == Insert(Insert(s, qs, u), ps, v)
  {
    InsertOne(s, ps, v);
    InsertOne(s, qs, u);
    SameField(s, Insert(s, ps, v), qs, u);
    SameField(s, Insert(s, qs, u), ps, v);
  }

  /** A write depends on the field it goes into only. */
  lemma SameField<V>(s: Store<V>, t: Store<V>, ps: seq<string>, v: Value<V>)
    requires ps != [] && (ps[0] in s <==> ps[0] in t) && (ps[0] in s ==> s[ps[0]] == t[ps[0]])
    ensures (Insert(s, ps, v) == s && Insert(t, ps, v) == t) ||
      (ps[0] in Insert(s, ps, v) && Insert(s, ps, v) == s[ps[0] := Insert(s, ps, v)[ps[0]]] &&
       Insert(t, ps, v) == t[ps[0] := Insert(s, ps, v)[ps[0]]])
  {
  }

  /** Writes to unrelated paths can be swapped. */
  lemma {:induction false} InsertSwap<V>(s: Store<V>, ps: seq<string>, v: Value<V>, qs: seq<string>, u: Value<V>)
    requires ps != [] && qs != [] && !(ps <= qs) && !(qs <= ps)
    ensures Insert(Insert(s, ps, v), qs, u) == Insert(Insert(s, qs, u), ps, v)
    decreases |ps|
  {
    if ps[0] == qs[0] {
      assert ps == [ps[0]] + ps[1..] && qs == [qs[0]] + qs[1..];
      InsertTwice(s, ps, v, qs, u);
      InsertTwice(s, qs, u, ps, v);
      if Inner(s, ps[0]).Some? {
        InsertSwap(Inner(s, ps[0]).value, ps[1..], v, qs[1..], u);
      }
    } else {
      FieldsApart(s, ps, v, qs, u);
    }
  }

  /** A write replaces what was written at or below its path, and a later one below goes into what it wrote. */
  lemma {:induction false} InsertBelow<V>(s: Store<V>, ps: seq<string>, v: Value<V>, rest: seq<string>, u: Value<V>)
    requires ps != []
    ensures Insert(Insert(s, ps + rest, u), ps, v) == Insert(s, ps, v)
    ensures Insert(Insert(s, ps, v), ps + rest, u) == Insert(s, ps, InsertIn(v, rest, u))
    decreases |ps|
  {
    var qs := ps + rest;
    assert qs[0] == ps[0] && qs[1..] == ps[1..] + rest;
    if |ps| > 1 {
      InsertTwice(s, ps, v, qs, u);
      InsertTwice(s, qs, u, ps, v);
      InsertInner(s, ps, v);
      InsertInner(s, ps, InsertIn(v, rest, u));
      if Inner(s, ps[0]).Some? {
        InsertBelow(Inner(s, ps[0]).value, ps[1..], v, rest, u);
      }
    } else {
      InsertBelowField(s, ps, v, rest, u);
    }
  }

  lemma InsertBelowField<V>(s: Store<V>, ps: seq<string>, v: Value<V>, rest: seq<string>, u: Value<V>)
    requires |ps| == 1
    ensures Insert(Insert(s, ps + rest, u), ps, v) == Insert(s, ps, v)
    ensures Insert(Insert(s, ps, v), ps + rest, u) == Insert(s, ps, InsertIn(v, rest, u))
  {
    if rest == [] {
      assert ps + rest == ps;
    } else {
      InsertOverField(s, ps, v, ps + rest, u);
      InsertIntoField(s, ps, v, rest, u);
    }
  }

  lemma InsertOverField<V>(s: Store<V>, ps: seq<string>, v: Value<V>, qs: seq<string>, u: Value<V>)
    requires |ps| == 1 && qs != [] && qs[0] == ps[0]
    ensures Insert(Insert(s, qs, u), ps, v) == Insert(s, ps, v)
  {
    InsertOne(s, qs, u);
  }

  lemma InsertIntoField<V>(s: Store<V>, ps: seq<string>, v: Value<V>, rest: seq<string>, u: Value<V>)
    requires |ps| == 1 && rest != []
    ensures Insert(Insert(s, ps, v), ps + rest, u) == Insert(s, ps, InsertIn(v, rest, u))
  {
    var qs := ps + rest;
    assert qs[0] == ps[0] && qs[1..] == rest;
    InsertInner(Insert(s, ps, v), qs, u);
  }

  /** A write says what it wrote, unless it is dropped. */
  lemma {:induction false} InsertTells<V>(s: Store<V>, ps: seq<string>, v: Value<V>, v': Value<V>)
    requires ps != []
    ensures Insert(s, ps, v) == Insert(s, ps, v') <==> v == v' || Look(s, ps).Under?
  {
    LookWritten(s, ps, v);
    LookWritten(s, ps, v');
  }

  lemma InsertInKeeps<V>(v: Value<V>, ps: seq<string>, u: Value<V>)
    ensures InsertIn(v, ps, u) == v <==> LookIn(v, ps) == Found(u) || LookIn(v, ps).Under?
  {
    if ps != [] && v.Object? {
      LookWritten(v.fields, ps, u);
      if Look(v.fields, ps) == Found(u) {
        InsertSame(v.fields, ps, u);
      }
    }
  }

  lemma {:induction false} InsertSame<V>(s: Store<V>, ps: seq<string>, v: Value<V>)
    requires ps != [] && Look(s, ps) == Found(v)
    ensures Insert(s, ps, v) == s
    decreases |ps|
  {
    if |ps| > 1 {
      InsertSame(s[ps[0]].fields, ps[1..], v);
    }
  }

  /**
   The write of v at p makes up for one of u at or below p: it is dropped itself, or u
   is there already, or a write there would be dropped.
   */
  ghost predicate Outweighs<V>(s: Store<V>, p: Path, v: Value<V>, q: Path, u: Value<V>)
    requires Extends(p, q)
  {
    ExtendsIsPrefix(p, q);
    var there := LookIn(v, Parts(q)[|Parts(p)|..]);
    Get(s, p).Under? || there == Found(u) || there.Under?
  }

  lemma SwapBelow<V>(s: Store<V>, p: Path, v: Value<V>, q: Path, u: Value<V>)
    requires Extends(p, q)
    ensures Put(Put(s, p, v), q, u) == Put(Put(s, q, u), p, v) <==> Outweighs(s, p, v, q, u)
  {
    ExtendsIsPrefix(p, q);
    var ps, rest := Parts(p), Parts(q)[|Parts(p)|..];
    assert Parts(q) == ps + rest;
    InsertBelow(s, ps, v, rest, u);
    InsertTells(s, ps, v, InsertIn(v, rest, u));
    InsertInKeeps(v, rest, u);
  }

  /** Two writes can be swapped exactly if neither path is above the other or the upper one outweighs the lower one. */
  lemma OrderMatters<V>(s: Store<V>, p: Path, v: Value<V>, q: Path, u: Value<V>)
    ensures Put(Put(s, p, v), q, u) == Put(Put(s, q, u), p, v) <==>
      && (Extends(p, q) ==> Outweighs(s, p, v, q, u))
      && (Extends(q, p) ==> Outweighs(s, q, u, p, v))
  {
    ExtendsIsPrefix(p, q);
    ExtendsIsPrefix(q, p);
    if Extends(p, q) {
      SwapBelow(s, p, v, q, u);
    }
    if Extends(q, p) {
      SwapBelow(s, q, u, p, v);
    }
    if !Related(p, q) {
      InsertSwap(s, Parts(p), v, Parts(q), u);
    }
  }

  lemma PutElsewhere<V>(s: Store<V>, p: Path, v: Value<V>, q: Path)
    requires !Related(p, q)
    ensures Get(Put(s, p, v), q) == Get(s, q)
  {
    ExtendsIsPrefix(p, q);
    ExtendsIsPrefix(q, p);
    LookElsewhere(s, Parts(p), v, Parts(q));
  }

  lemma PutSwap<V>(s: Store<V>, p: Path, v: Value<V>, q: Path, u: Value<V>)
    requires !Related(p, q)
    ensures Put(Put(s, p, v), q, u) == Put(Put(s, q, u), p, v)
  {
    OrderMatters(s, p, v, q, u);
  }

  /** Below a write there is what it wrote there. */
  lemma {:induction false} LookBelow<V>(s: Store<V>, ps: seq<string>, v: Value<V>, rest: seq<string>)
    requires ps != [] && !Look(s, ps).Under?
    ensures Look(Insert(s, ps, v), ps + rest) == LookIn(v, rest)
    decreases |ps|
  {
    assert (ps + rest)[0] == ps[0] && (ps + rest)[1..] == ps[1..] + rest;
    if |ps| == 1 {
      assert ps[1..] + rest == rest;
    } else if ps[0] !in s {
      LookBelow(map[], ps[1..], v, rest);
    } else {
      LookBelow(s[ps[0]].fields, ps[1..], v, rest);
    }
  }

  /** What is written below an object stays, and what was there before the object is lost. */
  lemma WrittenBelow<V>(s: Store<V>, p: Path, q: Path, u: Value<V>)
    requires Extends(p, q) && p != q && !Get(s, p).Under?
    ensures Get(Put(Put(s, p, Object(map[])), q, u), q) == Found(u)
    ensures Get(Put(Put(s, q, u), p, Object(map[])), q) == Absent
  {
    ExtendsIsPrefix(p, q);
    ExtendsIsPrefix(q, p);
    var ps, rest := Parts(p), Parts(q)[|Parts(p)|..];
    assert Parts(q) == ps + rest;
    assert rest != [] by {
      assert rest == [] ==> Parts(q) <= Parts(p);
    }
    LookBelow(s, ps, Object(map[]), rest);
    LookWritten(Put(s, p, Object(map[])), Parts(q), u);
    InsertBelow(s, ps, Object(map[]), rest, u);
  }

  /** A write shows at, above and below its path where there was nothing. */
  lemma PutShows<V>(s: Store<V>, p: Path, v: Value<V>, q: Path)
    requires Related(p, q) && Get(s, p) == Absent && (p == q || Extends(q, p) || v.Leaf?)
    ensures Get(Put(s, p, v), q) != Absent
  {
    ExtendsIsPrefix(p, q);
    ExtendsIsPrefix(q, p);
    if Extends(q, p) {
      ShowsAbove(s, Parts(p), v, Parts(q));
    } else {
      ShowsBelow(s, Parts(p), v, Parts(q));
    }
  }

  lemma {:induction false} ShowsAbove<V>(s: Store<V>, ps: seq<string>, v: Value<V>, qs: seq<string>)
    requires qs != [] && qs <= ps && !Look(s, ps).Under?
    ensures Look(Insert(s, ps, v), qs) != Absent
    decreases |qs|
  {
    if |qs| > 1 {
      assert ps == [ps[0]] + ps[1..] && qs == [qs[0]] + qs[1..];
      if ps[0] !in s {
        ShowsAbove(map[], ps[1..], v, qs[1..]);
      } else {
        ShowsAbove(s[ps[0]].fields, ps[1..], v, qs[1..]);
      }
    }
  }

  lemma {:induction false} ShowsBelow<V>(s: Store<V>, ps: seq<string>, v: Value<V>, qs: seq<string>)
    requires ps != [] && ps <= qs && v.Leaf?
    ensures Look(Insert(s, ps, v), qs) != Absent
    decreases |ps|
  {
    assert ps == [ps[0]] + ps[1..] && qs == [qs[0]] + qs[1..];
    if |ps| > 1 {
      if ps[0] !in s {
        ShowsBelow(map[], ps[1..], v, qs[1..]);
      } else if s[ps[0]].Object? {
        ShowsBelow(s[ps[0]].fields, ps[1..], v, qs[1..]);
      }
    }
  }

  // ---------------------------------------------------------------- the writes of a block

  function Apply<V>(s: Store<V>, ws: Writes<V>): Store<V> {
    if ws == [] then s
    else
      var last := ws[|ws| - 1];
      Put(Apply(s, ws[..|ws| - 1]), last.0, last.1)
  }

  /** Writes are made one after the other. */
  lemma AppliedInOrder<V>(s: Store<V>, ws: Writes<V>, p: Path, v: Value<V>)
    ensures Apply(s, []) == s && Apply(s, ws + [(p, v)]) == Put(Apply(s, ws), p, v)
  {
    assert (ws + [(p, v)])[..|ws|] == ws;
  }

  /** No write of ws is at, above or below p. */
  ghost predicate ClearOf<V>(ws: Writes<V>, p: Path) {
    forall i :: 0 <= i < |ws| ==> !Related(ws[i].0, p)
  }

  lemma {:induction false} ApplyElsewhere<V>(s: Store<V>, ws: Writes<V>, p: Path)
    requires ClearOf(ws, p)
    ensures Get(Apply(s, ws), p) == Get(s, p)
  {
    if ws != [] {
      ApplyElsewhere(s, ws[..|ws| - 1], p);
      PutElsewhere(Apply(s, ws[..|ws| - 1]), ws[|ws| - 1].0, ws[|ws| - 1].1, p);
    }
  }

  lemma {:induction false} ApplyPutSwap<V>(s: Store<V>, ws: Writes<V>, p: Path, v: Value<V>)
    requires ClearOf(ws, p)
    ensures Apply(Put(s, p, v), ws) == Put(Apply(s, ws), p, v)
  {
    if ws != [] {
      ApplyPutSwap(s, ws[..|ws| - 1], p, v);
      PutSwap(Apply(s, ws[..|ws| - 1]), p, v, ws[|ws| - 1].0, ws[|ws| - 1].1);
    }
  }

  /** Blocks that write unrelated paths can write in either order. */
  lemma {:induction false} ApplySwap<V>(s: Store<V>, ws: Writes<V>, us: Writes<V>)
    requires forall i :: 0 <= i < |us| ==> ClearOf(ws, us[i].0)
    ensures Apply(Apply(s, us), ws) == Apply(Apply(s, ws), us)
  {
    if us != [] {
      var before, last := us[..|us| - 1], us[|us| - 1];
      ApplySwap(s, ws, before);
      ApplyPutSwap(Apply(s, before), ws, last.0, last.1);
    }
  }

  // ---------------------------------------------------------------- what is seen from paths

  type View<+V> = map<Path, Sight<V>>

  function ViewOf<V>(s: Store<V>, paths: seq<Path>): View<V> {
    map p | p in paths :: Get(s, p)
  }

  lemma SameView<V>(s: Store<V>, s': Store<V>, paths: seq<Path>)
    requires forall p :: p in paths ==> Get(s, p) == Get(s', p)
    ensures ViewOf(s, paths) == ViewOf(s', paths)
  {
  }
}
