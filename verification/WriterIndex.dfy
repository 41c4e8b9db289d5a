/**
 Which blocks write a path. The compiled policy keeps for every written path, and
 for the paths above it, the blocks that write there; a demand runs the writers of
 the longest prefix that has any.
 */
module WriterIndex {
  import opened PathOrder
  import opened Wrappers

  /** The blocks to run when a path is demanded. */
  type Writers = map<Path, seq<nat>>

  // ---------------------------------------------------------------- writers of a path

  function WritersFor(a: Writers, p: Path): seq<nat> {
    if p in a then a[p] else []
  }

  /** The last dot before end, or -1. */
  function LastDot(p: Path, end: nat): (r: int)
    requires end <= |p|
    ensures -1 <= r < end
    ensures r >= 0 ==> p[r] == '.'
    ensures forall i :: r < i < end ==> p[i] != '.'
  {
    if end == 0 then -1 else if p[end - 1] == '.' then end - 1 else LastDot(p, end - 1)
  }

  /** k is the length of the path itself or of one of its dotted prefixes. */
  predicate IsPrefixLength(p: Path, k: nat) {
    k == |p| || (k < |p| && p[k] == '.')
  }

  /** The writers of the longest dotted prefix, no longer than end, that has any. */
  function LongestPrefixWriters(a: Writers, p: Path, end: nat): seq<nat>
    requires end <= |p|
    decreases end
  {
    var dot := LastDot(p, end);
    if dot < 0 then []
    else if WritersFor(a, p[..dot]) != [] then WritersFor(a, p[..dot])
    else LongestPrefixWriters(a, p, dot)
  }

  function WritersOf(a: Writers, p: Path): seq<nat> {
    if WritersFor(a, p) != [] then WritersFor(a, p) else LongestPrefixWriters(a, p, |p|)
  }

  lemma {:induction false} LongestPrefixWritersFacts(a: Writers, p: Path, end: nat)
    requires end <= |p|
    ensures LongestPrefixWriters(a, p, end) == [] ==>
      forall k :: 0 <= k < end && p[k] == '.' ==> WritersFor(a, p[..k]) == []
    ensures LongestPrefixWriters(a, p, end) != [] ==> exists k ::
      && 0 <= k < end && p[k] == '.' && WritersFor(a, p[..k]) == LongestPrefixWriters(a, p, end)
      && forall j :: k < j < end && p[j] == '.' ==> WritersFor(a, p[..j]) == []
    decreases end
  {
    var dot := LastDot(p, end);
    if dot >= 0 {
      if WritersFor(a, p[..dot]) != [] {
        assert p[dot] == '.' && WritersFor(a, p[..dot]) == LongestPrefixWriters(a, p, end);
      } else {
        LongestPrefixWritersFacts(a, p, dot);
      }
    }
  }

  /** A path is written by the writers of its longest prefix, itself included, that has writers at all. */
  lemma WritersOfLongestPrefix(a: Writers, p: Path)
    ensures WritersOf(a, p) == [] <==> forall k :: 0 <= k <= |p| && IsPrefixLength(p, k) ==> WritersFor(a, p[..k]) == []
    ensures WritersOf(a, p) != [] ==> exists k ::
      && 0 <= k <= |p| && IsPrefixLength(p, k) && WritersFor(a, p[..k]) == WritersOf(a, p)
      && forall j :: k < j <= |p| && IsPrefixLength(p, j) ==> WritersFor(a, p[..j]) == []
  {
    assert p[..|p|] == p;
    LongestPrefixWritersFacts(a, p, |p|);
    if WritersFor(a, p) != [] {
      assert IsPrefixLength(p, |p|) && WritersFor(a, p[..|p|]) == WritersOf(a, p);
    } else if WritersOf(a, p) != [] {
      var k :| 0 <= k < |p| && p[k] == '.' && WritersFor(a, p[..k]) == LongestPrefixWriters(a, p, |p|)
        && forall j :: k < j < |p| && p[j] == '.' ==> WritersFor(a, p[..j]) == [];
      assert IsPrefixLength(p, k);
    }
  }

  method WritersOfLongestPrefixLoop(a: Writers, p: Path) returns (r: seq<nat>)
    ensures r == WritersOf(a, p)
  {
    var direct := WritersFor(a, p);
    if direct != [] {
      return direct;
    }
    var end := |p|;
    while LastDot(p, end) >= 0
      invariant 0 <= end <= |p|
      invariant LongestPrefixWriters(a, p, |p|) == LongestPrefixWriters(a, p, end)
      decreases end
    {
      var dot := LastDot(p, end);
      var owners := WritersFor(a, p[..dot]);
      if owners != [] {
        return owners;
      }
      end := dot;
    }
    r := [];
  }

  /** All blocks that write one of the paths. */
  function WritersOfAll(a: Writers, paths: seq<Path>): set<nat> {
    if paths == [] then {} else WritersOfAll(a, paths[..|paths| - 1]) + Elements(WritersOf(a, paths[|paths| - 1]))
  }

  lemma {:induction false} WritersOfAllHas(a: Writers, paths: seq<Path>, i: nat)
    requires i < |paths|
    ensures Elements(WritersOf(a, paths[i])) <= WritersOfAll(a, paths)
  {
    if i < |paths| - 1 {
      WritersOfAllHas(a, paths[..|paths| - 1], i);
    }
  }

  lemma {:induction false} WritersOfAllFrom(a: Writers, paths: seq<Path>, w: nat) returns (i: nat)
    requires w in WritersOfAll(a, paths)
    ensures i < |paths| && w in WritersOf(a, paths[i])
  {
    if w in WritersOf(a, paths[|paths| - 1]) {
      i := |paths| - 1;
    } else {
      i := WritersOfAllFrom(a, paths[..|paths| - 1], w);
    }
  }

  lemma {:induction false} WritersOfBoth(a: Writers, p: seq<Path>, q: seq<Path>)
    ensures WritersOfAll(a, p + q) == WritersOfAll(a, p) + WritersOfAll(a, q)
  {
    if q == [] {
      assert p + q == p;
    } else {
      var before := q[..|q| - 1];
      assert (p + q)[..|p + q| - 1] == p + before;
      WritersOfBoth(a, p, before);
    }
  }

  lemma WritersOfOneMore(a: Writers, paths: seq<Path>, i: nat)
    requires i < |paths|
    ensures WritersOfAll(a, paths[..i + 1]) == WritersOfAll(a, paths[..i]) + Elements(WritersOf(a, paths[i]))
  {
    assert paths[..i + 1][..i] == paths[..i];
  }

  lemma FirstPathWriters(a: Writers, paths: seq<Path>)
    requires paths != []
    ensures WritersOfAll(a, paths) == Elements(WritersOf(a, paths[0])) + WritersOfAll(a, paths[1..])
  {
    assert paths == [paths[0]] + paths[1..];
    WritersOfBoth(a, [paths[0]], paths[1..]);
  }

  /** Every block that writes anything. */
  function Blocks(a: Writers): set<nat> {
    set p, w | p in a && w in a[p] :: w
  }

  /** Every writer of every path is among the given blocks. */
  predicate HasAllWriters(a: Writers, blocks: set<nat>) {
    forall p :: p in a ==> Elements(a[p]) <= blocks
  }

  lemma WritersAreBlocks(a: Writers, blocks: set<nat>, p: Path)
    requires HasAllWriters(a, blocks)
    ensures Elements(WritersOf(a, p)) <= blocks
  {
    WritersOfLongestPrefix(a, p);
    if WritersOf(a, p) != [] {
      var k :| 0 <= k <= |p| && IsPrefixLength(p, k) && WritersFor(a, p[..k]) == WritersOf(a, p);
      assert p[..k] in a;
    }
  }

  // ---------------------------------------------------------------- paths above and below each other

  /** p is q itself or a dotted prefix of it. */
  predicate Extends(p: Path, q: Path) {
    |p| <= |q| && q[..|p|] == p && IsPrefixLength(q, |p|)
  }

  predicate Related(p: Path, q: Path) {
    Extends(p, q) || Extends(q, p)
  }

  lemma ExtendsTransitive(p: Path, q: Path, r: Path)
    requires Extends(p, q) && Extends(q, r)
    ensures Extends(p, r)
  {
    assert r[..|p|] == q[..|p|];
    if |p| < |r| {
      if |p| < |q| {
        assert r[|p|] == q[|p|];
      }
    }
  }

  lemma PrefixesRelated(p: Path, q: Path, r: Path)
    requires Extends(p, r) && Extends(q, r)
    ensures Related(p, q)
  {
    if |p| <= |q| {
      assert q[..|p|] == r[..|p|];
    } else {
      assert p[..|q|] == r[..|q|];
    }
  }

  // ---------------------------------------------------------------- who writes what

  /** No block writes above, at or below a path that another block writes. */
  ghost predicate Exclusive(writes: nat -> set<Path>) {
    forall b, w, p, q :: p in writes(b) && q in writes(w) && Related(p, q) ==> b == w
  }

  /** Only blocks that write at a path or below it are its writers, and a block is a writer of what it writes. */
  ghost predicate Indexed(a: Writers, writes: nat -> set<Path>) {
    && (forall k, w :: w in WritersFor(a, k) ==> exists p :: p in writes(w) && Extends(k, p))
    && (forall w, p :: p in writes(w) ==> w in WritersFor(a, p))
  }

  /** The writers of p are all blocks that write at p or below it. */
  ghost predicate Covered(a: Writers, writes: nat -> set<Path>, p: Path) {
    forall w, q :: q in writes(w) && Extends(p, q) ==> w in WritersFor(a, p)
  }

  /** A demand of a covered path runs every block that writes above, at or below it. */
  lemma DemandRunsAll(a: Writers, writes: nat -> set<Path>, p: Path, w: nat, q: Path)
    requires Exclusive(writes) && Indexed(a, writes) && Covered(a, writes, p)
    requires q in writes(w) && Related(p, q)
    ensures w in WritersOf(a, p)
  {
    if Extends(p, q) {
      assert w in WritersFor(a, p);
    } else {
      WritersOfLongestPrefix(a, p);
      assert p[..|q|] == q && w in WritersFor(a, q);
      var k :| 0 <= k <= |p| && IsPrefixLength(p, k) && WritersFor(a, p[..k]) == WritersOf(a, p)
        && forall j :: k < j <= |p| && IsPrefixLength(p, j) ==> WritersFor(a, p[..j]) == [];
      assert IsPrefixLength(p, |q|) && k >= |q|;
      var v := WritersOf(a, p)[0];
      assert v in WritersFor(a, p[..k]);
      var r :| r in writes(v) && Extends(p[..k], r);
      assert Extends(q, p[..k]) by {
        assert p[..k][..|q|] == q;
        assert |q| < k ==> p[..k][|q|] == p[|q|];
      }
      ExtendsTransitive(q, p[..k], r);
      assert q in writes(w) && r in writes(v) && Related(q, r);
    }
  }

  // ---------------------------------------------------------------- building the index

  /** A block writes a path. */
  datatype Write = Write(block: nat, path: Path)

  /** What a block writes, of the paths that do not belong to the data model. */
  ghost function Declared(writes: seq<Write>, dataModel: Path -> bool): nat -> set<Path> {
    (b: nat) => set i | 0 <= i < |writes| && writes[i].block == b && !dataModel(writes[i].path) :: writes[i].path
  }

  lemma DeclaredIs(writes: seq<Write>, dataModel: Path -> bool, b: nat, p: Path)
    ensures p in Declared(writes, dataModel)(b) <==>
      exists i :: 0 <= i < |writes| && writes[i].block == b && writes[i].path == p && !dataModel(p)
  {
  }

  /** Write i claims k: its path or a dotted prefix, unless the data model has it. */
  ghost predicate Claims(writes: seq<Write>, dataModel: Path -> bool, i: nat, k: Path)
    requires i < |writes|
  {
    !dataModel(writes[i].path) && !dataModel(k) && Extends(k, writes[i].path)
  }

  /** The first dot at or after from, or -1. */
  function NextDot(p: Path, from: nat): (r: int)
    requires from <= |p|
    ensures r == -1 || from <= r < |p|
    ensures r >= 0 ==> p[r] == '.' && forall i :: from <= i < r ==> p[i] != '.'
    ensures r < 0 ==> forall i :: from <= i < |p| ==> p[i] != '.'
    decreases |p| - from
  {
    if from == |p| then -1 else if p[from] == '.' then from else NextDot(p, from + 1)
  }

  /** p itself, or a dotted prefix shorter than end. */
  predicate IsAbove(p: Path, end: nat, k: Path) {
    k == p || (Extends(k, p) && |k| < end)
  }

  lemma NextAbove(p: Path, from: nat, k: Path)
    requires from <= |p|
    ensures NextDot(p, from) >= 0 ==>
      (IsAbove(p, NextDot(p, from) + 1, k) <==> IsAbove(p, from, k) || k == p[..NextDot(p, from)])
    ensures NextDot(p, from) < 0 ==> (IsAbove(p, from, k) <==> Extends(k, p))
  {
  }

  /** A path is owned by the block that claims it first. */
  function Own(owners: map<Path, nat>, k: Path, b: nat): map<Path, nat> {
    if k in owners then owners else owners[k := b]
  }

  /** The path and its dotted prefixes, as far as they are not of the data model, have an owner now. */
  method RegisterWrite(owners0: map<Path, nat>, dataModel: Path -> bool, w: Write) returns (owners: map<Path, nat>)
    requires !dataModel(w.path)
    ensures forall k :: k in owners <==> k in owners0 || (Extends(k, w.path) && !dataModel(k))
    ensures forall k :: k in owners ==> owners[k] == if k in owners0 then owners0[k] else w.block
  {
    owners := Own(owners0, w.path, w.block);
    var cut := 0;
    while NextDot(w.path, cut) >= 0
      invariant 0 <= cut <= |w.path|
      invariant forall k :: k in owners <==> k in owners0 || (IsAbove(w.path, cut, k) && !dataModel(k))
      invariant forall k :: k in owners ==> owners[k] == if k in owners0 then owners0[k] else w.block
      decreases |w.path| - cut
    {
      var dot := NextDot(w.path, cut);
      forall k {
        NextAbove(w.path, cut, k);
      }
      if !dataModel(w.path[..dot]) {
        owners := Own(owners, w.path[..dot], w.block);
      }
      cut := dot + 1;
    }
    forall k {
      NextAbove(w.path, cut, k);
    }
  }

  /** The block of the first of the first n writes that claims k. */
  ghost function FirstClaim(writes: seq<Write>, dataModel: Path -> bool, n: nat, k: Path): Option<nat>
    requires n <= |writes|
  {
    if n == 0 then None
    else if FirstClaim(writes, dataModel, n - 1, k).Some? then FirstClaim(writes, dataModel, n - 1, k)
    else if Claims(writes, dataModel, n - 1, k) then Some(writes[n - 1].block)
    else None
  }

  lemma {:induction false} FirstClaimIsFirst(writes: seq<Write>, dataModel: Path -> bool, n: nat, k: Path)
    requires n <= |writes|
    ensures FirstClaim(writes, dataModel, n, k).None? ==> forall i :: 0 <= i < n ==> !Claims(writes, dataModel, i, k)
    ensures FirstClaim(writes, dataModel, n, k).Some? ==> exists i ::
      && 0 <= i < n && Claims(writes, dataModel, i, k) && FirstClaim(writes, dataModel, n, k) == Some(writes[i].block)
      && forall j :: 0 <= j < i ==> !Claims(writes, dataModel, j, k)
  {
    if n > 0 {
      FirstClaimIsFirst(writes, dataModel, n - 1, k);
    }
  }

  /** Every path that a block writes, and every path above, is owned by the first block that writes there or below. */
  method RegisterWriters(writes: seq<Write>, dataModel: Path -> bool) returns (owners: map<Path, nat>)
    ensures forall k :: k in owners <==> FirstClaim(writes, dataModel, |writes|, k).Some?
    ensures forall k :: k in owners ==> FirstClaim(writes, dataModel, |writes|, k) == Some(owners[k])
  {
    owners := map[];
    var n := 0;
    while n < |writes|
      invariant 0 <= n <= |writes|
      invariant forall k :: k in owners <==> FirstClaim(writes, dataModel, n, k).Some?
      invariant forall k :: k in owners ==> FirstClaim(writes, dataModel, n, k) == Some(owners[k])
    {
      if !dataModel(writes[n].path) {
        owners := RegisterWrite(owners, dataModel, writes[n]);
      }
      n := n + 1;
    }
  }

  function Push(a: Writers, k: Path, b: nat): Writers {
    if b in WritersFor(a, k) then a else a[k := WritersFor(a, k) + [b]]
  }

  lemma PushFacts(a: Writers, k: Path, b: nat, q: Path, c: nat)
    ensures c in WritersFor(Push(a, k, b), q) <==> c in WritersFor(a, q) || (q == k && c == b)
  {
  }

  /** The writers that a path had before come first. */
  predicate Grows(a: Writers, a': Writers) {
    forall k :: k in a ==> WritersFor(a, k) <= WritersFor(a', k)
  }

  lemma PushGrows(a0: Writers, a: Writers, k: Path, b: nat)
    requires Grows(a0, a)
    ensures Grows(a0, Push(a, k, b))
  {
  }

  /** The owner of a path becomes a writer of the path and of the owned paths above it. */
  method PushOwner(a0: Writers, owners: map<Path, nat>, p: Path) returns (a: Writers)
    requires p in owners
    ensures forall k, c ::
      c in WritersFor(a, k) <==> c in WritersFor(a0, k) || (c == owners[p] && k in owners && Extends(k, p))
    ensures Grows(Push(a0, p, owners[p]), a)
  {
    a := Push(a0, p, owners[p]);
    forall k, c {
      PushFacts(a0, p, owners[p], k, c);
    }
    var cut := 0;
    while NextDot(p, cut) >= 0
      invariant 0 <= cut <= |p|
      invariant forall k, c ::
        c in WritersFor(a, k) <==> c in WritersFor(a0, k) || (c == owners[p] && k in owners && IsAbove(p, cut, k))
      invariant Grows(Push(a0, p, owners[p]), a)
      decreases |p| - cut
    {
      var dot := NextDot(p, cut);
      forall k {
        NextAbove(p, cut, k);
      }
      if p[..dot] in owners {
        forall k, c {
          PushFacts(a, p[..dot], owners[p], k, c);
        }
        PushGrows(Push(a0, p, owners[p]), a, p[..dot], owners[p]);
        a := Push(a, p[..dot], owners[p]);
      }
      cut := dot + 1;
    }
    forall k {
      NextAbove(p, cut, k);
    }
  }

  lemma {:induction false} PrefixIsNotGreater(p: Path, q: Path)
    requires |p| <= |q| && q[..|p|] == p
    ensures !PathLess(q, p)
  {
    if p != "" {
      assert q[1..][..|p| - 1] == p[1..];
      assert q[0] == p[0];
      PrefixIsNotGreater(p[1..], q[1..]);
    }
  }

  /** The owner of a path is its first writer. */
  ghost predicate OwnerFirst(a: Writers, owners: map<Path, nat>, k: Path)
    requires k in owners
  {
    WritersFor(a, k) != [] && WritersFor(a, k)[0] == owners[k]
  }

  /** A path has no writers before its turn. */
  lemma NoneBefore(a: Writers, sorted: seq<Path>, n: nat)
    requires n < |sorted| && Sorted(sorted)
    requires forall k, c :: c in WritersFor(a, k) ==> exists i :: 0 <= i < n && Extends(k, sorted[i])
    ensures WritersFor(a, sorted[n]) == []
  {
    forall i | 0 <= i < n
      ensures !Extends(sorted[n], sorted[i])
    {
      PrefixBelow(sorted[n], sorted[i]);
    }
    HasElement(WritersFor(a, sorted[n]));
  }

  lemma StaysFirst(a: Writers, k: Path, b: nat, a': Writers, owners: map<Path, nat>, p: Path)
    requires Grows(Push(a, k, b), a') && p in owners && OwnerFirst(a, owners, p)
    ensures OwnerFirst(a', owners, p)
  {
    var pushed := Push(a, k, b);
    assert p in a && p in pushed && WritersFor(a, p) <= WritersFor(pushed, p) <= WritersFor(a', p);
  }

  /** Paths come before the paths below them, so that their owners are the first writers. */
  lemma PushFirst(a: Writers, a': Writers, owners: map<Path, nat>, sorted: seq<Path>, n: nat)
    requires n < |sorted| && Sorted(sorted) && forall p :: p in sorted <==> p in owners
    requires Grows(Push(a, sorted[n], owners[sorted[n]]), a')
    requires forall k, c :: c in WritersFor(a, k) ==> exists i :: 0 <= i < n && Extends(k, sorted[i])
    requires forall i :: 0 <= i < n ==> OwnerFirst(a, owners, sorted[i])
    ensures forall i :: 0 <= i <= n ==> OwnerFirst(a', owners, sorted[i])
  {
    var p := sorted[n];
    NoneBefore(a, sorted, n);
    assert p in Push(a, p, owners[p]) && WritersFor(Push(a, p, owners[p]), p) == [owners[p]];
    forall i | 0 <= i < n
      ensures OwnerFirst(a', owners, sorted[i])
    {
      StaysFirst(a, p, owners[p], a', owners, sorted[i]);
    }
  }

  lemma PrefixBelow(p: Path, q: Path)
    requires PathLess(q, p)
    ensures !Extends(p, q)
  {
    if |p| <= |q| && q[..|p|] == p {
      PrefixIsNotGreater(p, q);
    }
  }

  /** The writers of an owned path are the owners of those of the first n paths that are at or below it. */
  ghost predicate Collected(a: Writers, owners: map<Path, nat>, sorted: seq<Path>, n: nat)
    requires n <= |sorted| && forall p :: p in sorted <==> p in owners
  {
    forall k, c :: c in WritersFor(a, k) <==>
      k in owners && exists i :: 0 <= i < n && owners[sorted[i]] == c && Extends(k, sorted[i])
  }

  lemma CollectedAll(a: Writers, owners: map<Path, nat>, sorted: seq<Path>)
    requires (forall p :: p in sorted <==> p in owners) && Collected(a, owners, sorted, |sorted|)
    requires forall i :: 0 <= i < |sorted| ==> OwnerFirst(a, owners, sorted[i])
    ensures forall k, c ::
      c in WritersFor(a, k) <==> k in owners && exists q :: q in owners && owners[q] == c && Extends(k, q)
    ensures forall k :: k in owners ==> OwnerFirst(a, owners, k)
  {
    forall k, c
      ensures c in WritersFor(a, k) <==> k in owners && exists q :: q in owners && owners[q] == c && Extends(k, q)
    {
      if k in owners && exists q :: q in owners && owners[q] == c && Extends(k, q) {
        var q :| q in owners && owners[q] == c && Extends(k, q);
        assert q in sorted;
      }
    }
    forall k | k in owners
      ensures OwnerFirst(a, owners, k)
    {
      assert k in sorted;
    }
  }

  /** The writers of an owned path are the owners of the owned paths at and below it, its own owner first. */
  method CollectDemandWriters(owners: map<Path, nat>) returns (a: Writers)
    ensures forall k, c ::
      c in WritersFor(a, k) <==> k in owners && exists q :: q in owners && owners[q] == c && Extends(k, q)
    ensures forall k :: k in owners ==> OwnerFirst(a, owners, k)
  {
    a := map[];
    var sorted := SortedElements(owners.Keys);
    var n := 0;
    while n < |sorted|
      invariant 0 <= n <= |sorted| && Collected(a, owners, sorted, n)
      invariant forall i :: 0 <= i < n ==> OwnerFirst(a, owners, sorted[i])
    {
      ghost var before := a;
      a := PushOwner(a, owners, sorted[n]);
      PushFirst(before, a, owners, sorted, n);
      n := n + 1;
    }
    CollectedAll(a, owners, sorted);
  }

  /** Owners and writers as they are computed from what the blocks write. */
  ghost predicate IsIndexOf(a: Writers, owners: map<Path, nat>, writes: seq<Write>, dataModel: Path -> bool) {
    && (forall k :: k in owners <==> FirstClaim(writes, dataModel, |writes|, k).Some?)
    && (forall k :: k in owners ==> FirstClaim(writes, dataModel, |writes|, k) == Some(owners[k]))
    && (forall k, c ::
      c in WritersFor(a, k) <==> k in owners && exists q :: q in owners && owners[q] == c && Extends(k, q))
    && forall k :: k in owners ==> OwnerFirst(a, owners, k)
  }

  method BuildIndex(writes: seq<Write>, dataModel: Path -> bool) returns (a: Writers, ghost owners: map<Path, nat>)
    ensures IsIndexOf(a, owners, writes, dataModel)
  {
    var registered := RegisterWriters(writes, dataModel);
    a := CollectDemandWriters(registered);
    owners := registered;
  }

  /** Every indexed block is the first writer of a path that it owns. */
  lemma OwnersHead(a: Writers, owners: map<Path, nat>, writes: seq<Write>, dataModel: Path -> bool, b: nat)
    returns (p: Path)
    requires IsIndexOf(a, owners, writes, dataModel) && b in Blocks(a)
    ensures WritersOf(a, p) != [] && WritersOf(a, p)[0] == b
  {
    var k :| k in a && b in a[k];
    assert b in WritersFor(a, k);
    p :| p in owners && owners[p] == b && Extends(k, p);
    assert OwnerFirst(a, owners, p);
  }

  /** Where blocks are exclusive, what a block writes is owned by it. */
  lemma OwnsItsWrites(a: Writers, owners: map<Path, nat>, writes: seq<Write>, dataModel: Path -> bool, b: nat, p: Path)
    requires IsIndexOf(a, owners, writes, dataModel) && Exclusive(Declared(writes, dataModel))
    requires p in Declared(writes, dataModel)(b)
    ensures p in owners && owners[p] == b
  {
    DeclaredIs(writes, dataModel, b, p);
    var i :| 0 <= i < |writes| && writes[i].block == b && writes[i].path == p && !dataModel(p);
    assert Claims(writes, dataModel, i, p);
    FirstClaimIsFirst(writes, dataModel, |writes|, p);
    var j :| 0 <= j < |writes| && Claims(writes, dataModel, j, p) &&
      FirstClaim(writes, dataModel, |writes|, p) == Some(writes[j].block);
    DeclaredIs(writes, dataModel, writes[j].block, writes[j].path);
    assert p in Declared(writes, dataModel)(b) && writes[j].path in Declared(writes, dataModel)(writes[j].block)
        && Related(p, writes[j].path);
  }

  /** The index of exclusive blocks is as it should be, and covers all paths that are not of the data model. */
  lemma IndexOfExclusive(a: Writers, owners: map<Path, nat>, writes: seq<Write>, dataModel: Path -> bool)
    requires IsIndexOf(a, owners, writes, dataModel) && Exclusive(Declared(writes, dataModel))
    ensures Indexed(a, Declared(writes, dataModel))
    ensures forall p :: !dataModel(p) ==> Covered(a, Declared(writes, dataModel), p)
  {
    var declared := Declared(writes, dataModel);
    forall k, w | w in WritersFor(a, k)
      ensures exists p :: p in declared(w) && Extends(k, p)
    {
      var q :| q in owners && owners[q] == w && Extends(k, q);
      FirstClaimIsFirst(writes, dataModel, |writes|, q);
      var j :| 0 <= j < |writes| && Claims(writes, dataModel, j, q) &&
        FirstClaim(writes, dataModel, |writes|, q) == Some(writes[j].block);
      DeclaredIs(writes, dataModel, w, writes[j].path);
      ExtendsTransitive(k, q, writes[j].path);
    }
    forall w, p | p in declared(w)
      ensures w in WritersFor(a, p)
    {
      OwnsItsWrites(a, owners, writes, dataModel, w, p);
    }
    forall p, w, q | !dataModel(p) && q in declared(w) && Extends(p, q)
      ensures w in WritersFor(a, p)
    {
      OwnsItsWrites(a, owners, writes, dataModel, w, q);
      DeclaredIs(writes, dataModel, w, q);
      var i :| 0 <= i < |writes| && writes[i].block == w && writes[i].path == q && !dataModel(q);
      assert Claims(writes, dataModel, i, p);
      FirstClaimIsFirst(writes, dataModel, |writes|, p);
    }
  }
}
