/**
 The inner loops of plus, minus and times on digit arrays, each proved against
 the natural numbers the arrays denote. The proofs read the arrays from the
 left, where one more digit means ten times the number plus that digit.
 */
module DigitLoops {
  import opened BigNumber

  /** Two differences of digit arrays that agree up to q and digit by digit from q on agree. */
  lemma {:induction false} SameDifference(a: seq<int>, b: seq<int>, c: seq<int>, d: seq<int>, q: nat, m: nat)
    requires |a| == |b| == |c| == |d| && q <= m <= |a|
    requires MantTo(a, q) - MantTo(b, q) == MantTo(c, q) - MantTo(d, q)
    requires forall i :: q <= i < m ==> a[i] - b[i] == c[i] - d[i]
    ensures MantTo(a, m) - MantTo(b, m) == MantTo(c, m) - MantTo(d, m)
  {
    if q < m {
      SameDifference(a, b, c, d, q, m - 1);
    }
  }

  /** Once a prefix is smaller, no later digit makes up for it. */
  lemma {:induction false} LessStays(x: seq<int>, y: seq<int>, q: nat, m: nat)
    requires IsDigits(x) && IsDigits(y) && |x| == |y| && q <= m <= |x|
    requires MantTo(x, q) < MantTo(y, q)
    ensures MantTo(x, m) < MantTo(y, m)
  {
    if q < m {
      LessStays(x, y, q, m - 1);
    }
  }

  /** Arrays that agree from q on differ by the difference of their heads, shifted. */
  lemma {:induction false} ShiftedDifference(a: seq<int>, b: seq<int>, q: nat, m: nat)
    requires |a| == |b| && q <= m <= |a|
    requires forall i :: q <= i < m ==> a[i] == b[i]
    ensures IsIntProduct(MantTo(a, q) - MantTo(b, q), Pow10(m - q), MantTo(a, m) - MantTo(b, m))
  {
    if q < m {
      ShiftedDifference(a, b, q, m - 1);
      TenTimesProduct(MantTo(a, q) - MantTo(b, q), Pow10(m - 1 - q), MantTo(a, m - 1) - MantTo(b, m - 1));
    }
  }

  /** The digits of y from j on, in their places. */
  function Mask(y: seq<int>, j: nat): (z: seq<int>)
    ensures |z| == |y| && forall i :: 0 <= i < |y| ==> z[i] == if i < j then 0 else y[i]
  {
    seq(|y|, i requires 0 <= i < |y| => if i < j then 0 else y[i])
  }

  /** The digits of y before j, in their places. */
  function Head(y: seq<int>, j: nat): (z: seq<int>)
    ensures |z| == |y| && forall i :: 0 <= i < |y| ==> z[i] == if i < j then y[i] else 0
  {
    seq(|y|, i requires 0 <= i < |y| => if i < j then y[i] else 0)
  }

  lemma HeadAndMask(y: seq<int>, n: nat)
    requires n <= |y|
    ensures Mant(Head(y, n)) + Mant(Mask(y, n)) == Mant(y)
  {
    MantToAgree(Head(y, n), y, n);
    MantToZeros(Mask(y, n), n);
    MantToZeros(Zeros(|y|), n);
    MantToZeros(Zeros(|y|), |y|);
    SameDifference(y, Mask(y, n), Head(y, n), Zeros(|y|), n, |y|);
  }

  // ---------------------------------------------------------------- addition

  /** Digit by digit, c with carry[0] in front is x + y; carry[i] comes into place i - 1 from place i. */
  ghost predicate DigitSum(x: seq<int>, y: seq<int>, c: seq<int>, carry: seq<int>) {
    && |x| == |y| == |c| && |carry| == |c| + 1
    && forall i :: 0 <= i < |c| ==> c[i] + 10 * carry[i] == x[i] + y[i] + carry[i + 1]
  }

  lemma {:induction false} SumOfPrefixes(x: seq<int>, y: seq<int>, c: seq<int>, carry: seq<int>, m: nat)
    requires DigitSum(x, y, c, carry) && m <= |c|
    ensures MantTo([carry[0]] + c, m + 1) == MantTo(x, m) + MantTo(y, m) + carry[m]
  {
    if m > 0 {
      SumOfPrefixes(x, y, c, carry, m - 1);
    }
  }

  /** Adds the shorter array yc into xc from the right; k is the carry out of the left end. */
  method AddDigits(xc0: seq<int>, yc: seq<int>) returns (xc: seq<int>, k: int)
    requires IsDigits(xc0) && IsDigits(yc) && |yc| <= |xc0|
    ensures |xc| == |xc0| && IsDigits(xc) && 0 <= k <= 1
    ensures Mant([k] + xc) == Mant(xc0) + Mant(yc + Zeros(|xc0| - |yc|))
  {
    ghost var y := yc + Zeros(|xc0| - |yc|);
    ghost var carry := Zeros(|xc0| + 1);
    xc := xc0;
    var e := |yc|;
    k := 0;
    while e > 0
      invariant 0 <= e <= |yc| && |xc| == |xc0| && IsDigits(xc) && 0 <= k <= 1
      invariant |carry| == |xc| + 1 && carry[e] == k && carry[|xc|] == 0
      invariant forall i :: 0 <= i < e ==> xc[i] == xc0[i]
      invariant forall i :: e <= i < |xc| ==> xc[i] + 10 * carry[i] == xc0[i] + y[i] + carry[i + 1]
    {
      e := e - 1;
      var t := xc[e] + yc[e] + k;
      xc := xc[e := t % 10];
      k := t / 10;
      carry := carry[e := k];
    }
    SumOfPrefixes(xc0, y, xc, carry, |xc|);
  }

  // ---------------------------------------------------------------- subtraction

  lemma {:induction false} NinesForZeros(x: seq<int>, r: seq<int>, i: nat, j: nat)
    requires |x| == |r| && i <= j <= |x|
    requires MantTo(r, i) == MantTo(x, i) - 1
    requires forall q :: i <= q < j ==> x[q] == 0 && r[q] == 9
    ensures MantTo(r, j) == MantTo(x, j) - 1
  {
    if i < j {
      NinesForZeros(x, r, i, j - 1);
    }
  }

  /** Takes one from the digits left of j: zeros become nines up to the first nonzero digit. */
  method Borrow(xc: seq<int>, j: nat) returns (r: seq<int>)
    requires IsDigits(xc) && j <= |xc|
    requires MantTo(xc, j) > 0
    ensures |r| == |xc| && IsDigits(r) && forall q :: j <= q < |r| ==> r[q] == xc[q]
    ensures MantTo(r, j) == MantTo(xc, j) - 1
  {
    r := xc;
    var i := j;
    while true
      invariant 0 <= i <= j && |r| == |xc| && IsDigits(r)
      invariant forall q :: 0 <= q < |r| && !(i <= q < j) ==> r[q] == xc[q]
      invariant forall q :: i <= q < j ==> xc[q] == 0 && r[q] == 9
      decreases i
    {
      if i == 0 {
        MantToZeros(xc, j);
        assert false;
        break;
      }
      i := i - 1;
      if r[i] != 0 {
        break;
      }
      r := r[i := 9];
    }
    r := r[i := r[i] - 1];
    MantToAgree(r, xc, i);
    NinesForZeros(xc, r, i + 1, j);
  }

  /** While the minuend is still the larger number, a digit that is too small has a nonzero digit on its left. */
  lemma BorrowExists(x: seq<int>, x0: seq<int>, y: seq<int>, j: nat)
    requires IsDigits(x) && IsDigits(y) && |x| == |x0| == |y| && j < |x|
    requires Mant(x) + Mant(Mask(y, j + 1)) == Mant(x0)
    requires Mant(x0) >= Mant(y)
    requires x[j] < y[j]
    ensures MantTo(x, j) > 0
  {
    MantToRange(x, j);
    MantToRange(y, j);
    HeadAndMask(y, j + 1);
    MantToAgree(Head(y, j + 1), y, j + 1);
    if MantTo(x, j) == 0 {
      LessStays(x, Head(y, j + 1), j + 1, |x|);
      assert false;
    }
  }

  /** One step of the subtraction: the digit y goes from place j of x. */
  lemma DigitSubtracted(before: seq<int>, after: seq<int>, y: seq<int>, j: nat)
    requires |before| == |after| == |y| && j < |y|
    requires MantTo(after, j + 1) == MantTo(before, j + 1) - y[j]
    requires forall q :: j < q < |y| ==> after[q] == before[q]
    ensures Mant(after) + Mant(Mask(y, j)) == Mant(before) + Mant(Mask(y, j + 1))
  {
    MantToZeros(Mask(y, j), j);
    MantToZeros(Mask(y, j + 1), j);
    SameDifference(after, before, Mask(y, j + 1), Mask(y, j), j + 1, |y|);
  }

  /**
   Subtracts yc from xc, from the right down to index a. The caller has put the
   larger number in xc; the first a digits of yc are the zeros it prepended.
   */
  method SubtractDigits(xc0: seq<int>, yc: seq<int>, a: nat) returns (xc: seq<int>)
    requires IsDigits(xc0) && IsDigits(yc) && a <= |yc| <= |xc0|
    requires forall i :: 0 <= i < a ==> yc[i] == 0
    requires Mant(xc0) >= Mant(yc + Zeros(|xc0| - |yc|))
    ensures |xc| == |xc0| && IsDigits(xc)
    ensures Mant(xc) == Mant(xc0) - Mant(yc + Zeros(|xc0| - |yc|))
  {
    ghost var y := yc + Zeros(|xc0| - |yc|);
    xc := xc0;
    var j := |yc|;
    MantToZeros(Mask(y, j), |y|);
    while j > a
      invariant a <= j <= |yc| && |xc| == |xc0| && IsDigits(xc)
      invariant Mant(xc) + Mant(Mask(y, j)) == Mant(xc0)
    {
      ghost var before := xc;
      j := j - 1;
      if xc[j] < yc[j] {
        BorrowExists(xc, xc0, y, j);
        var r := Borrow(xc, j);
        xc := r[j := r[j] + 10];
        MantToAgree(xc, r, j);
      }
      MantToAgree(xc, xc[j := xc[j] - yc[j]], j);
      xc := xc[j := xc[j] - yc[j]];
      DigitSubtracted(before, xc, y, j);
    }
    assert Mask(y, a) == y;
  }

  // ---------------------------------------------------------------- multiplication

  /** In one place: c with k carried out is c0 plus d times x plus k' carried in. */
  ghost predicate RowPlace(c: int, k: int, c0: int, d: int, x: int, k': int) {
    c + 10 * k == c0 + d * x + k'
  }

  lemma RowStep(d: int, x: int, mx: int, c: int, k: int, c0: int, k': int, m: int, m0: int)
    requires RowPlace(c, k, c0, d, x, k')
    requires IsIntProduct(d, mx, m - m0 - k)
    ensures IsIntProduct(d, 10 * mx + x, (10 * m + c) - (10 * m0 + c0) - k')
  {
    assert d * (10 * mx + x) == 10 * (d * mx) + d * x;
  }

  /** The row of d times x that ends at place n of c, with the digit b carried out into place i. */
  ghost predicate IsRow(x: seq<int>, d: int, c0: seq<int>, c: seq<int>, i: nat, carry: seq<int>) {
    && |c| == |c0| && i + |x| < |c| && |carry| == |x| + 1
    && (forall q :: 0 <= q < i ==> c[q] == 0 && c0[q] == 0)
    && c0[i] == 0 && c[i] == carry[0] && carry[|x|] == 0
    && forall q :: 0 <= q < |x| ==>
      RowPlace(c[i + 1 + q], carry[q], c0[i + 1 + q], d, x[q], carry[q + 1])
  }

  lemma {:induction false} RowOfPrefixes(x: seq<int>, d: int, c0: seq<int>, c: seq<int>, i: nat, carry: seq<int>,
      m: nat)
    requires IsRow(x, d, c0, c, i, carry) && m <= |x|
    ensures IsIntProduct(d, MantTo(x, m), MantTo(c, i + 1 + m) - MantTo(c0, i + 1 + m) - carry[m])
  {
    if m == 0 {
      MantToZeros(c, i);
      MantToZeros(c0, i);
    } else {
      RowOfPrefixes(x, d, c0, c, i, carry, m - 1);
      RowStep(d, x[m - 1], MantTo(x, m - 1), c[i + m], carry[m - 1], c0[i + m], carry[m],
              MantTo(c, i + m), MantTo(c0, i + m));
    }
  }

  /** A digit, a product of digits and a carried digit: at most 99. */
  method DigitProduct(c: int, y: int, x: int, b: int) returns (t: int)
    requires 0 <= c <= 9 && 0 <= y <= 9 && 0 <= x <= 9 && 0 <= b <= 9
    ensures 0 <= t <= 99
    ensures RowPlace(t % 10, t / 10, c, y, x, b)
  {
    t := c + y * x + b;
    assert 0 <= y * x <= 81;
  }

  /** One row of the schoolbook product: adds yi * xc into c, one place to the right of i. */
  method MultiplyRow(xc: seq<int>, yi: int, c0: seq<int>, i: nat) returns (c: seq<int>, b: int)
    requires IsDigits(xc) && 0 <= yi <= 9
    requires IsDigits(c0) && i + |xc| < |c0|
    requires forall q :: 0 <= q <= i ==> c0[q] == 0
    ensures |c| == |c0| && IsDigits(c) && 0 <= b <= 9 && c[i] == b
    ensures forall q :: 0 <= q < |c| && !(i <= q <= i + |xc|) ==> c[q] == c0[q]
    ensures IsIntProduct(yi, Mant(xc), MantTo(c, i + |xc| + 1) - MantTo(c0, i + |xc| + 1))
  {
    ghost var a := |xc|;
    ghost var carry := Zeros(a + 1);
    c := c0;
    b := 0;
    var j := |xc| + i;
    while j > i
      invariant i <= j <= i + a && |c| == |c0| && IsDigits(c) && 0 <= b <= 9
      invariant |carry| == a + 1 && carry[j - i] == b && carry[a] == 0
      invariant forall q :: 0 <= q < |c| && !(j < q <= i + a) ==> c[q] == c0[q]
      invariant forall q :: j - i <= q < a ==>
        RowPlace(c[i + 1 + q], carry[q], c0[i + 1 + q], yi, xc[q], carry[q + 1])
    {
      var t := DigitProduct(c[j], yi, xc[j - i - 1], b);
      c := c[j := t % 10];
      b := t / 10;
      carry := carry[j - i - 1 := b];
      j := j - 1;
    }
    c := c[j := b];
    RowOfPrefixes(xc, yi, c0, c, i, carry, a);
  }

  /** The whole schoolbook product; b is the digit carried into the leading place. */
  method MultiplyDigits(xc: seq<int>, yc: seq<int>) returns (c: seq<int>, b: int)
    requires IsDigits(xc) && IsDigits(yc) && |yc| >= 1
    ensures |c| == |xc| + |yc| && IsDigits(c) && b == c[0]
    ensures IsIntProduct(Mant(xc), Mant(yc), Mant(c))
  {
    ghost var a := |xc|;
    c := Zeros(|xc| + |yc|);
    b := 0;
    var i := |yc|;
    MantToZeros(c, |c|);
    MantToZeros(Mask(yc, i), |yc|);
    while i > 0
      invariant 0 <= i <= |yc| && |c| == a + |yc| && IsDigits(c)
      invariant forall q :: 0 <= q < i ==> c[q] == 0
      invariant i < |yc| ==> b == c[i]
      invariant IsIntProduct(Mant(xc), Mant(Mask(yc, i)), Mant(c))
    {
      ghost var before := c;
      i := i - 1;
      c, b := MultiplyRow(xc, yc[i], c, i);
      ghost var n := i + a + 1;
      ShiftedDifference(c, before, n, |c|);
      MaskGrows(yc, i);
      RowAdded(Mant(c), Mant(before), MantTo(c, n) - MantTo(before, n), yc[i], Mant(xc),
               Pow10(|yc| - i - 1), Mant(Mask(yc, i)), Mant(Mask(yc, i + 1)));
    }
    assert Mask(yc, 0) == yc;
  }

  lemma MaskGrows(y: seq<int>, i: nat)
    requires i < |y|
    ensures IsIntProduct(y[i], Pow10(|y| - i - 1), Mant(Mask(y, i)) - Mant(Mask(y, i + 1)))
  {
    MantToZeros(Mask(y, i), i);
    MantToZeros(Mask(y, i + 1), i);
    ShiftedDifference(Mask(y, i), Mask(y, i + 1), i + 1, |y|);
  }

  lemma RowAdded(m: int, m0: int, row: int, y: int, x: int, p: int, ys: int, ys0: int)
    requires IsIntProduct(y, x, row) && IsIntProduct(row, p, m - m0) && IsIntProduct(y, p, ys - ys0)
    requires IsIntProduct(x, ys0, m0)
    ensures IsIntProduct(x, ys, m)
  {
    assert (y * x) * p == x * (y * p);
    assert x * (ys0 + y * p) == x * ys0 + x * (y * p);
  }
}
