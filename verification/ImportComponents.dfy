/**
 The components of the import graph: policies that import each other, directly or
 through others and in either direction, are analysed together.
 */
module ImportComponents {
  import opened PathOrder
  import opened Wrappers

  /** The imports of every policy that parsed. */
  type Parsed = map<Path, seq<Path>>

  /** One policy imports the other; imports of policies that did not parse do not count. */
  predicate Linked(parsed: Parsed, p: Path, q: Path) {
    p in parsed && q in parsed && (q in parsed[p] || p in parsed[q])
  }

  ghost predicate IsWalk(parsed: Parsed, w: seq<Path>) {
    && |w| > 0 && w[0] in parsed
    && forall i :: 0 <= i < |w| - 1 ==> Linked(parsed, w[i], w[i + 1])
  }

  ghost predicate Connected(parsed: Parsed, p: Path, q: Path) {
    exists w :: IsWalk(parsed, w) && w[0] == p && w[|w| - 1] == q
  }

  lemma ConnectedSelf(parsed: Parsed, p: Path)
    requires p in parsed
    ensures Connected(parsed, p, p)
  {
    assert IsWalk(parsed, [p]) && [p][|[p]| - 1] == p;
  }

  lemma ConnectedStep(parsed: Parsed, p: Path, q: Path, r: Path)
    requires Connected(parsed, p, q) && Linked(parsed, q, r)
    ensures Connected(parsed, p, r)
  {
    var w :| IsWalk(parsed, w) && w[0] == p && w[|w| - 1] == q;
    assert IsWalk(parsed, w + [r]) && (w + [r])[|w + [r]| - 1] == r;
  }

  lemma ConnectedBack(parsed: Parsed, p: Path, q: Path)
    requires Connected(parsed, p, q)
    ensures Connected(parsed, q, p)
  {
    var w :| IsWalk(parsed, w) && w[0] == p && w[|w| - 1] == q;
    var back := seq(|w|, i requires 0 <= i < |w| => w[|w| - 1 - i]);
    assert w[|w| - 1] in parsed by {
      assert |w| > 1 ==> Linked(parsed, w[|w| - 2], w[|w| - 2 + 1]);
    }
    forall i | 0 <= i < |back| - 1
      ensures Linked(parsed, back[i], back[i + 1])
    {
      var j := |w| - 2 - i;
      assert Linked(parsed, w[j], w[j + 1]);
    }
    assert IsWalk(parsed, back) && back[|back| - 1] == p;
  }

  lemma ConnectedThrough(parsed: Parsed, p: Path, q: Path, r: Path)
    requires Connected(parsed, p, q) && Connected(parsed, q, r)
    ensures Connected(parsed, p, r)
  {
    var w :| IsWalk(parsed, w) && w[0] == p && w[|w| - 1] == q;
    var w' :| IsWalk(parsed, w') && w'[0] == q && w'[|w'| - 1] == r;
    var both := w + w'[1..];
    forall i | 0 <= i < |both| - 1
      ensures Linked(parsed, both[i], both[i + 1])
    {
      if i >= |w| - 1 {
        var j := i - (|w| - 1);
        assert Linked(parsed, w'[j], w'[j + 1]);
      }
    }
    assert IsWalk(parsed, both) && both[|both| - 1] == r;
  }

  ghost predicate Closed(parsed: Parsed, s: set<Path>) {
    forall p, q :: p in s && Linked(parsed, p, q) ==> q in s
  }

  lemma {:induction false} WalkStaysInside(parsed: Parsed, s: set<Path>, w: seq<Path>)
    requires Closed(parsed, s) && IsWalk(parsed, w) && w[0] in s
    ensures w[|w| - 1] in s
  {
    if |w| > 1 {
      WalkStaysInside(parsed, s, w[..|w| - 1]);
      assert Linked(parsed, w[|w| - 2], w[|w| - 2 + 1]);
    }
  }

  // ---------------------------------------------------------------- the import graph

  /** An edge for every import of a parsed policy by a parsed policy. */
  method ComputeImportGraph(parsed: Parsed) returns (edges: seq<(Path, Path)>)
    ensures forall p, q :: (p, q) in edges <==> p in parsed && q in parsed[p] && q in parsed
  {
    edges := [];
    var rest := parsed.Keys;
    while rest != {}
      invariant rest <= parsed.Keys
      invariant forall p, q :: (p, q) in edges <==> p in parsed && p !in rest && q in parsed[p] && q in parsed
    {
      var src :| src in rest;
      var imports := parsed[src];
      var i := 0;
      while i < |imports|
        invariant 0 <= i <= |imports|
        invariant forall p, q :: (p, q) in edges <==>
          p in parsed && q in parsed && ((p !in rest && q in parsed[p]) || (p == src && q in imports[..i]))
      {
        if imports[i] in parsed {
          edges := edges + [(src, imports[i])];
        }
        i := i + 1;
      }
      rest := rest - {src};
    }
  }

  /** The policies at the other end of the edges of p. */
  function Neighbours(edges: seq<(Path, Path)>, p: Path): (r: seq<Path>)
    ensures forall q :: q in r <==> (p, q) in edges || (q, p) in edges
  {
    if edges == [] then []
    else
      var rest, (src, dst) := Neighbours(edges[1..], p), edges[0];
      assert forall e :: e in edges <==> e == edges[0] || e in edges[1..];
      (if src == p then [dst] else []) + (if dst == p then [src] else []) + rest
  }

  // ---------------------------------------------------------------- components

  ghost predicate IsGraphOf(edges: seq<(Path, Path)>, parsed: Parsed) {
    forall p, q :: (p, q) in edges <==> p in parsed && q in parsed[p] && q in parsed
  }

  /** Members and stack lead back to the root; what a member links to has been seen or is on the stack. */
  ghost predicate Collecting(parsed: Parsed, root: Path, seen0: set<Path>, members: seq<Path>, stack: seq<Path>) {
    && NoDuplicates(members) && Elements(members) !! seen0
    && (root in stack || root in members)
    && (forall p :: p in members || p in stack ==> p in parsed && Connected(parsed, root, p))
    && (forall p, q :: p in members && Linked(parsed, p, q) ==> q in seen0 || q in members || q in stack)
  }

  lemma PopMember(parsed: Parsed, root: Path, seen0: set<Path>, members: seq<Path>, stack: seq<Path>, p: Path)
    requires Collecting(parsed, root, seen0, members, stack + [p]) && (p in members || (p in seen0 && p != root))
    ensures Collecting(parsed, root, seen0, members, stack)
  {
    forall q | q in stack + [p] && q !in stack
      ensures q == p
    {
    }
    forall q, r | q in members && Linked(parsed, q, r)
      ensures r in seen0 || r in members || r in stack
    {
      assert r in seen0 || r in members || r in stack + [p];
    }
  }

  lemma AddMember(parsed: Parsed, edges: seq<(Path, Path)>, root: Path, seen0: set<Path>, members: seq<Path>,
      stack: seq<Path>, p: Path)
    requires IsGraphOf(edges, parsed) && Collecting(parsed, root, seen0, members, stack + [p])
    requires p !in members && p !in seen0
    ensures Collecting(parsed, root, seen0, members + [p], stack + Neighbours(edges, p))
  {
    var members', stack' := members + [p], stack + Neighbours(edges, p);
    forall q | q in Neighbours(edges, p)
      ensures q in parsed && Connected(parsed, root, q)
    {
      assert p in stack + [p];
      ConnectedStep(parsed, root, p, q);
    }
    forall q, r | q in members' && Linked(parsed, q, r)
      ensures r in seen0 || r in members' || r in stack'
    {
      if q == p {
        assert r in Neighbours(edges, p);
      } else {
        assert q in members;
        assert r in seen0 || r in members || r in stack + [p];
      }
    }
    assert root in stack' || root in members' by {
      assert root in stack + [p] || root in members;
    }
  }

  lemma AllCollected(parsed: Parsed, root: Path, seen0: set<Path>, members: seq<Path>)
    requires Collecting(parsed, root, seen0, members, []) && Closed(parsed, seen0)
    ensures forall p :: p in members <==> Connected(parsed, root, p)
    ensures Closed(parsed, seen0 + Elements(members))
  {
    forall p, q | p in Elements(members) && Linked(parsed, p, q)
      ensures q in Elements(members)
    {
      assert q in seen0 ==> Linked(parsed, q, p);
    }
    assert Closed(parsed, Elements(members));
    forall p | Connected(parsed, root, p)
      ensures p in members
    {
      var w :| IsWalk(parsed, w) && w[0] == root && w[|w| - 1] == p;
      WalkStaysInside(parsed, Elements(members), w);
    }
  }

  /** The policies that root leads to, none of which was seen before, by a walk with a stack. */
  method Collect(parsed: Parsed, edges: seq<(Path, Path)>, root: Path, seen0: set<Path>)
    returns (members: seq<Path>, seen: set<Path>)
    requires IsGraphOf(edges, parsed) && root in parsed && root !in seen0
    requires seen0 <= parsed.Keys && Closed(parsed, seen0)
    ensures seen == seen0 + Elements(members) && Elements(members) !! seen0 && seen <= parsed.Keys
    ensures NoDuplicates(members) && Closed(parsed, seen)
    ensures forall p :: p in members <==> Connected(parsed, root, p)
  {
    members, seen := [], seen0;
    var stack := [root];
    ConnectedSelf(parsed, root);
    while stack != []
      invariant seen == seen0 + Elements(members) && Collecting(parsed, root, seen0, members, stack)
      decreases parsed.Keys - seen, |stack|
    {
      var p, rest := stack[|stack| - 1], stack[..|stack| - 1];
      assert stack == rest + [p];
      stack := rest;
      if p in seen {
        PopMember(parsed, root, seen0, members, rest, p);
      } else {
        AddMember(parsed, edges, root, seen0, members, rest, p);
        seen := seen + {p};
        members := members + [p];
        stack := stack + Neighbours(edges, p);
      }
    }
    AllCollected(parsed, root, seen0, members);
  }

  ghost predicate Listed(components: seq<seq<Path>>, p: Path) {
    exists i :: 0 <= i < |components| && p in components[i]
  }

  /** All policies connected to any one of them. */
  ghost predicate IsComponent(parsed: Parsed, c: seq<Path>) {
    c != [] && Sorted(c) && forall p, q :: p in c ==> (q in c <==> Connected(parsed, p, q))
  }

  ghost predicate Disjoint(components: seq<seq<Path>>) {
    forall i, j, p ::
      0 <= i < |components| && 0 <= j < |components| && p in components[i] && p in components[j] ==> i == j
  }

  /** The components so far. */
  ghost predicate Partition(parsed: Parsed, seen: set<Path>, components: seq<seq<Path>>) {
    && seen <= parsed.Keys && Closed(parsed, seen)
    && (forall p :: p in seen <==> Listed(components, p))
    && (forall i :: 0 <= i < |components| ==> IsComponent(parsed, components[i]))
    && Disjoint(components)
  }

  /**
   Every parsed policy is in exactly one component, the one the map names; two
   policies share a component exactly if they are connected; members are sorted.
   */
  method ComputeComponents(parsed: Parsed, edges: seq<(Path, Path)>)
    returns (components: seq<seq<Path>>, componentOf: map<Path, nat>)
    requires IsGraphOf(edges, parsed)
    ensures componentOf.Keys == parsed.Keys
    ensures forall p :: p in componentOf ==> componentOf[p] < |components| && p in components[componentOf[p]]
    ensures forall i, p :: 0 <= i < |components| && p in components[i] ==> p in componentOf && componentOf[p] == i
    ensures forall p, q :: p in parsed && q in parsed ==>
      (componentOf[p] == componentOf[q] <==> Connected(parsed, p, q))
    ensures forall i :: 0 <= i < |components| ==> components[i] != [] && Sorted(components[i])
  {
    components := ListComponents(parsed, edges);
    componentOf := Inverse(parsed, components);
    forall p, q | p in parsed && q in parsed
      ensures componentOf[p] == componentOf[q] <==> Connected(parsed, p, q)
    {
      SameComponentIffConnected(parsed, components, p, q, componentOf[p], componentOf[q]);
    }
    forall i | 0 <= i < |components|
      ensures components[i] != [] && Sorted(components[i])
    {
      assert IsComponent(parsed, components[i]);
    }
  }

  /** From every policy, in order, that no earlier component has reached. */
  method ListComponents(parsed: Parsed, edges: seq<(Path, Path)>) returns (components: seq<seq<Path>>)
    requires IsGraphOf(edges, parsed)
    ensures Partition(parsed, parsed.Keys, components)
  {
    components := [];
    var seen: set<Path> := {};
    var sorted := SortedElements(parsed.Keys);
    var i := 0;
    while i < |sorted|
      invariant 0 <= i <= |sorted| && Partition(parsed, seen, components)
      invariant forall k :: 0 <= k < i ==> sorted[k] in seen
    {
      if sorted[i] !in seen {
        var members, seen' := Collect(parsed, edges, sorted[i], seen);
        AddComponent(parsed, seen, components, sorted[i], members);
        ConnectedSelf(parsed, sorted[i]);
        components := components + [SortDedup(members)];
        seen := seen';
      }
      i := i + 1;
    }
    assert seen == parsed.Keys;
  }

  lemma CollectedIsComponent(parsed: Parsed, root: Path, members: seq<Path>)
    requires root in parsed && forall p :: p in members <==> Connected(parsed, root, p)
    ensures IsComponent(parsed, SortDedup(members))
  {
    SortDedupSorts(members);
    ConnectedSelf(parsed, root);
    assert root in SortDedup(members);
    forall p, q | p in members
      ensures q in members <==> Connected(parsed, p, q)
    {
      ConnectedBack(parsed, root, p);
      if Connected(parsed, p, q) {
        ConnectedThrough(parsed, root, p, q);
      }
      if q in members {
        ConnectedThrough(parsed, p, root, q);
      }
    }
  }

  lemma ListedOneMore(components: seq<seq<Path>>, c: seq<Path>, p: Path)
    ensures Listed(components + [c], p) <==> Listed(components, p) || p in c
  {
    var components' := components + [c];
    assert components'[|components|] == c;
    if Listed(components, p) {
      var i :| 0 <= i < |components| && p in components[i];
      assert p in components'[i];
    }
  }

  lemma AddComponent(parsed: Parsed, seen: set<Path>, components: seq<seq<Path>>, root: Path, members: seq<Path>)
    requires Partition(parsed, seen, components) && root in parsed && Elements(members) !! seen
    requires forall p :: p in members <==> Connected(parsed, root, p)
    requires seen + Elements(members) <= parsed.Keys && Closed(parsed, seen + Elements(members))
    ensures Partition(parsed, seen + Elements(members), components + [SortDedup(members)])
  {
    CollectedIsComponent(parsed, root, members);
    forall p
      ensures Listed(components + [SortDedup(members)], p) <==> p in seen + Elements(members)
    {
      ListedOneMore(components, SortDedup(members), p);
    }
    DisjointOneMore(components, SortDedup(members), seen);
  }

  lemma DisjointOneMore(components: seq<seq<Path>>, c: seq<Path>, seen: set<Path>)
    requires Disjoint(components) && forall p :: p in seen <==> Listed(components, p)
    requires forall p :: p in c ==> p !in seen
    ensures Disjoint(components + [c])
  {
    var components' := components + [c];
    forall i, j, p | 0 <= i < |components'| && 0 <= j < |components'| && p in components'[i] && p in components'[j]
      ensures i == j
    {
      if i < |components| {
        assert Listed(components, p);
      }
      if j < |components| {
        assert Listed(components, p);
      }
    }
  }

  lemma SameComponentIffConnected(parsed: Parsed, components: seq<seq<Path>>, p: Path, q: Path, i: nat, j: nat)
    requires Partition(parsed, parsed.Keys, components) && i < |components| && j < |components|
    requires p in components[i] && q in components[j]
    ensures i == j <==> Connected(parsed, p, q)
  {
    assert IsComponent(parsed, components[i]);
  }

  /** The map names the component of every policy listed in the first n components, and nothing else. */
  ghost predicate Names(components: seq<seq<Path>>, n: nat, r: map<Path, nat>)
    requires n <= |components|
  {
    && (forall i, p :: 0 <= i < n && p in components[i] ==> p in r && r[p] == i)
    && (forall p :: p in r ==> r[p] < n && p in components[r[p]])
  }

  /** The index of the component of every policy. */
  method Inverse(ghost parsed: Parsed, components: seq<seq<Path>>) returns (r: map<Path, nat>)
    requires Partition(parsed, parsed.Keys, components)
    ensures r.Keys == parsed.Keys && Names(components, |components|, r)
  {
    r := map[];
    var i := 0;
    while i < |components|
      invariant 0 <= i <= |components| && Names(components, i, r)
    {
      ghost var before := r;
      r := NameMembers(components[i], i, r);
      NamesOneMore(components, i, before, r);
      i := i + 1;
    }
    forall p
      ensures p in r <==> p in parsed
    {
      assert p in parsed <==> Listed(components, p);
    }
  }

  method NameMembers(members: seq<Path>, index: nat, r0: map<Path, nat>) returns (r: map<Path, nat>)
    ensures forall p :: p in r <==> p in r0 || p in members
    ensures forall p :: p in r ==> r[p] == if p in members then index else r0[p]
  {
    r := r0;
    var k := 0;
    while k < |members|
      invariant 0 <= k <= |members|
      invariant forall p :: p in r <==> p in r0 || p in members[..k]
      invariant forall p :: p in r ==> r[p] == if p in members[..k] then index else r0[p]
    {
      assert members[..k + 1] == members[..k] + [members[k]];
      r := r[members[k] := index];
      k := k + 1;
    }
    assert members[..k] == members;
  }

  lemma NamesOneMore(components: seq<seq<Path>>, n: nat, r: map<Path, nat>, r': map<Path, nat>)
    requires n < |components| && Disjoint(components) && Names(components, n, r)
    requires forall p :: p in r' <==> p in r || p in components[n]
    requires forall p :: p in r' ==> r'[p] == if p in components[n] then n else r[p]
    ensures Names(components, n + 1, r')
  {
  }

  // ---------------------------------------------------------------- what pins a component

  /** The policies connected to p. */
  ghost function ComponentOf(parsed: Parsed, p: Path): set<Path> {
    set q | q in parsed && Connected(parsed, p, q)
  }

  ghost predicate SameMembers(parsed: Parsed, parsed': Parsed, c: set<Path>) {
    forall p :: p in c ==> p in parsed && p in parsed' && parsed[p] == parsed'[p]
  }

  lemma {:induction false} WalkEndsInside(parsed: Parsed, w: seq<Path>)
    requires IsWalk(parsed, w)
    ensures w[|w| - 1] in parsed
  {
    if |w| > 1 {
      assert Linked(parsed, w[|w| - 2], w[|w| - 2 + 1]);
    }
  }

  lemma ConnectedInside(parsed: Parsed, p: Path, q: Path)
    requires Connected(parsed, p, q)
    ensures p in parsed && q in ComponentOf(parsed, p)
  {
    var w :| IsWalk(parsed, w) && w[0] == p && w[|w| - 1] == q;
    WalkEndsInside(parsed, w);
  }

  lemma {:induction false} WalkAmongMembers(parsed: Parsed, parsed': Parsed, p: Path, w: seq<Path>)
    requires SameMembers(parsed, parsed', ComponentOf(parsed, p)) && IsWalk(parsed, w) && w[0] == p
    ensures IsWalk(parsed', w)
  {
    var c := ComponentOf(parsed, p);
    forall i | 0 <= i < |w|
      ensures w[i] in c
    {
      var before := w[..i + 1];
      assert IsWalk(parsed, before) && before[0] == p && before[|before| - 1] == w[i] by {
        forall j | 0 <= j < |before| - 1
          ensures Linked(parsed, before[j], before[j + 1])
        {
          assert Linked(parsed, w[j], w[j + 1]);
        }
      }
      ConnectedInside(parsed, p, w[i]);
    }
    forall i | 0 <= i < |w| - 1
      ensures Linked(parsed', w[i], w[i + 1])
    {
      assert Linked(parsed, w[i], w[i + 1]) && w[i] in c && w[i + 1] in c;
    }
  }

  /**
   An analysis that depends on a component records its members. If these are
   unchanged, they are still the component exactly if none of them is linked to a
   policy outside.
   */
  lemma PinnedByMembers(parsed: Parsed, parsed': Parsed, p: Path)
    requires p in parsed && SameMembers(parsed, parsed', ComponentOf(parsed, p))
    ensures ComponentOf(parsed', p) == ComponentOf(parsed, p) <==> Closed(parsed', ComponentOf(parsed, p))
  {
    var c, c' := ComponentOf(parsed, p), ComponentOf(parsed', p);
    ConnectedSelf(parsed, p);
    forall q | q in c
      ensures q in c'
    {
      var w :| IsWalk(parsed, w) && w[0] == p && w[|w| - 1] == q;
      WalkAmongMembers(parsed, parsed', p, w);
    }
    if Closed(parsed', c) {
      forall q | q in c'
        ensures q in c
      {
        var w :| IsWalk(parsed', w) && w[0] == p && w[|w| - 1] == q;
        WalkStaysInside(parsed', c, w);
      }
    } else {
      var q, r :| q in c && Linked(parsed', q, r) && r !in c;
      assert q in c';
      ConnectedStep(parsed', p, q, r);
    }
  }

  /** A component is closed. */
  lemma ComponentClosed(parsed: Parsed, p: Path)
    ensures Closed(parsed, ComponentOf(parsed, p))
  {
    forall q, r | q in ComponentOf(parsed, p) && Linked(parsed, q, r)
      ensures r in ComponentOf(parsed, p)
    {
      ConnectedStep(parsed, p, q, r);
    }
  }

  /** A new policy that imports p changes the component of p without changing any of its members. */
  lemma NotPinnedByMembers(p: Path, q: Path)
    requires p != q
    ensures var parsed, parsed' := map[p := []], map[p := [], q := [p]];
      ComponentOf(parsed, p) == {p} && SameMembers(parsed, parsed', {p}) && ComponentOf(parsed', p) == {p, q}
  {
    var parsed: Parsed, parsed': Parsed := map[p := []], map[p := [], q := [p]];
    ConnectedSelf(parsed, p);
    ConnectedSelf(parsed', p);
    ConnectedStep(parsed', p, p, q);
  }
}
