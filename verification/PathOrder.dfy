/** The order of paths, and lists of paths sorted by it. */
module PathOrder {

  type Path = string

  predicate PathLess(p: Path, q: Path) {
    q != "" && (p == "" || p[0] < q[0] || (p[0] == q[0] && PathLess(p[1..], q[1..])))
  }

  /** p comes before q if it is the beginning of q, or has a smaller character where they first differ. */
  lemma {:induction false} PathLessExactly(p: Path, q: Path)
    ensures PathLess(p, q) <==> p < q || exists i ::
      0 <= i < |p| && i < |q| && p[..i] == q[..i] && p[i] < q[i]
  {
    if p != "" && q != "" && p[0] == q[0] {
      PathLessExactly(p[1..], q[1..]);
      assert p == [p[0]] + p[1..] && q == [q[0]] + q[1..];
      if i :| 0 <= i < |p| - 1 && i < |q| - 1 && p[1..][..i] == q[1..][..i] && p[1..][i] < q[1..][i] {
        assert p[..i + 1] == [p[0]] + p[1..][..i] && q[..i + 1] == [q[0]] + q[1..][..i];
        assert p[i + 1] < q[i + 1];
      }
      if i :| 0 <= i < |p| && i < |q| && p[..i] == q[..i] && p[i] < q[i] {
        assert p[1..][..i - 1] == p[..i][1..] && q[1..][..i - 1] == q[..i][1..];
        assert p[1..][i - 1] < q[1..][i - 1];
      }
    } else if p != "" && q != "" {
      assert p[0] < q[0] ==> p[..0] == q[..0];
      forall i | 0 < i < |p| && i < |q| && p[..i] == q[..i]
        ensures false
      {
        FirstSame(p, q, i);
      }
    }
  }

  lemma FirstSame(p: Path, q: Path, i: nat)
    requires 0 < i <= |p| && i <= |q| && p[..i] == q[..i]
    ensures p[0] == q[0]
  {
    assert p[..i][0] == q[..i][0];
  }

  lemma {:induction false} PathLessTransitive(p: Path, q: Path, r: Path)
    requires PathLess(p, q) && PathLess(q, r)
    ensures PathLess(p, r)
  {
    if p != "" && p[0] == q[0] == r[0] {
      PathLessTransitive(p[1..], q[1..], r[1..]);
    }
  }

  lemma {:induction false} PathLessTotal(p: Path, q: Path)
    ensures PathLess(p, q) || p == q || PathLess(q, p)
  {
    if p != "" && q != "" && p[0] == q[0] {
      PathLessTotal(p[1..], q[1..]);
      assert p == [p[0]] + p[1..] && q == [q[0]] + q[1..];
    }
  }

  predicate Sorted(s: seq<Path>) {
    forall i, j :: 0 <= i < j < |s| ==> PathLess(s[i], s[j])
  }

  function InsertSorted(p: Path, s: seq<Path>): (r: seq<Path>)
    ensures forall q :: q in r <==> q == p || q in s
  {
    if s == [] then [p]
    else if p == s[0] then s
    else if PathLess(p, s[0]) then [p] + s
    else
      var rest := InsertSorted(p, s[1..]);
      assert forall q :: q in [s[0]] + rest <==> q == s[0] || q in rest;
      assert forall q :: q in s <==> q == s[0] || q in s[1..];
      [s[0]] + rest
  }

  /** Sorted, without repetitions. */
  function SortDedup(s: seq<Path>): (r: seq<Path>)
    ensures forall q :: q in r <==> q in s
  {
    if s == [] then []
    else
      assert forall q :: q in s <==> q == s[0] || q in s[1..];
      InsertSorted(s[0], SortDedup(s[1..]))
  }

  lemma {:induction false} InsertKeepsSorted(p: Path, s: seq<Path>)
    requires Sorted(s)
    ensures Sorted(InsertSorted(p, s))
  {
    if s == [] || p == s[0] {
    } else if PathLess(p, s[0]) {
      forall j | 0 <= j < |s|
        ensures PathLess(p, s[j])
      {
        if j > 0 {
          PathLessTransitive(p, s[0], s[j]);
        }
      }
    } else {
      PathLessTotal(p, s[0]);
      InsertKeepsSorted(p, s[1..]);
      forall q | q in InsertSorted(p, s[1..])
        ensures PathLess(s[0], q)
      {
        if q != p {
          var j :| 1 <= j < |s| && s[j] == q;
        }
      }
    }
  }

  lemma {:induction false} SortDedupSorts(s: seq<Path>)
    ensures Sorted(SortDedup(s))
  {
    if s != [] {
      SortDedupSorts(s[1..]);
      InsertKeepsSorted(s[0], SortDedup(s[1..]));
    }
  }

  method SortedElements(paths: set<Path>) returns (sorted: seq<Path>)
    ensures Sorted(sorted) && forall p :: p in sorted <==> p in paths
  {
    var keys: seq<Path> := [];
    var rest := paths;
    while rest != {}
      invariant rest <= paths
      invariant forall p :: p in keys <==> p in paths && p !in rest
    {
      var p :| p in rest;
      keys, rest := keys + [p], rest - {p};
    }
    sorted := SortDedup(keys);
    SortDedupSorts(keys);
  }
}
