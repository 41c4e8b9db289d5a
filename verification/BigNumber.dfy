/**
 The denotation of big.js numbers: a sign, a decimal exponent and an array of
 decimal digits, most significant first, standing for

     s * (c[0] . c[1] c[2] ...) * 10^e

 together with the digit-array arithmetic every operation rests on.
 */
module BigNumber {

  /** The fields of a Big, as a value. */
  datatype Num = Num(s: int, e: int, c: seq<int>)

  predicate IsDigits(c: seq<int>) {
    forall i :: 0 <= i < |c| ==> 0 <= c[i] <= 9
  }

  predicate IsSign(s: int) {
    s == 1 || s == -1
  }

  predicate IsZero(n: Num) {
    n.c == [0]
  }

  /** The normal form: no zero digit at either end, and zero is [0] with exponent 0. */
  predicate Normal(n: Num) {
    && IsSign(n.s)
    && IsDigits(n.c)
    && |n.c| >= 1
    && (n.c[0] == 0 ==> n.c == [0] && n.e == 0)
    && (n.c[0] != 0 ==> n.c[|n.c| - 1] != 0)
  }

  function Pow10(k: nat): (p: nat)
    ensures p >= 1
  {
    if k == 0 then 1 else 10 * Pow10(k - 1)
  }

  lemma Pow10Add(a: nat, b: nat)
    ensures Pow10(a + b) == Pow10(a) * Pow10(b)
  {
    if b > 0 {
      Pow10Add(a, b - 1);
    }
  }

  lemma Pow10Monotone(a: nat, b: nat)
    requires a <= b
    ensures Pow10(a) <= Pow10(b)
  {
    if a < b {
      Pow10Monotone(a, b - 1);
    }
  }

  /** The first n digits read as one natural number. */
  function MantTo(c: seq<int>, n: nat): int
    requires n <= |c|
  {
    if n == 0 then 0 else 10 * MantTo(c, n - 1) + c[n - 1]
  }

  /** The digits read as one natural number. */
  function Mant(c: seq<int>): int {
    MantTo(c, |c|)
  }

  /** The real number 10^z. */
  function Scale(z: int): (r: real)
    ensures r > 0.0
    decreases if z < 0 then -z else z
  {
    if z == 0 then 1.0
    else if z > 0 then 10.0 * Scale(z - 1)
    else Scale(z + 1) / 10.0
  }

  /** The number a sign, an exponent and a digit array stand for. */
  function Val(s: int, e: int, c: seq<int>): real {
    (s * Mant(c)) as real * Scale(e - |c| + 1)
  }

  function Value(n: Num): real {
    Val(n.s, n.e, n.c)
  }

  function Zeros(n: nat): (z: seq<int>)
    ensures |z| == n && forall i :: 0 <= i < n ==> z[i] == 0
  {
    seq(n, _ => 0)
  }

  // ---------------------------------------------------------------- Scale

  lemma ScaleStep(z: int)
    ensures Scale(z + 1) == 10.0 * Scale(z) && Scale(0) == 1.0
  {
  }

  predicate IsProduct(a: real, b: real, p: real) {
    p == a * b
  }

  lemma ProductTimesTen(a: real, b: real, b10: real, p: real, p10: real)
    requires b10 == 10.0 * b && p10 == 10.0 * p
    ensures IsProduct(a, b, p) <==> IsProduct(a, b10, p10)
  {
  }

  lemma {:induction false} ScaleProduct(a: int, b: int)
    ensures IsProduct(Scale(a), Scale(b), Scale(a + b))
    decreases if b < 0 then -b else b
  {
    if b > 0 {
      ScaleProduct(a, b - 1);
      ScaleStep(a + b - 1);
      ScaleStep(b - 1);
      ProductTimesTen(Scale(a), Scale(b - 1), Scale(b), Scale(a + b - 1), Scale(a + b));
    } else if b < 0 {
      ScaleProduct(a, b + 1);
      ScaleStep(a + b);
      ScaleStep(b);
      ProductTimesTen(Scale(a), Scale(b), Scale(b + 1), Scale(a + b), Scale(a + b + 1));
    }
  }

  lemma ScalePow10(k: nat)
    ensures Scale(k) == Pow10(k) as real
  {
    if k > 0 {
      ScalePow10(k - 1);
    }
  }

  // ---------------------------------------------------------------- Mant

  lemma {:induction false} MantToAgree(a: seq<int>, b: seq<int>, n: nat)
    requires n <= |a| && n <= |b|
    requires forall i :: 0 <= i < n ==> a[i] == b[i]
    ensures MantTo(a, n) == MantTo(b, n)
  {
    if n > 0 {
      MantToAgree(a, b, n - 1);
    }
  }

  lemma MantPush(c: seq<int>, d: int)
    ensures Mant(c + [d]) == 10 * Mant(c) + d
  {
    MantToAgree(c, c + [d], |c|);
  }

  lemma MantPrefix(c: seq<int>, n: nat)
    requires n <= |c|
    ensures Mant(c[..n]) == MantTo(c, n)
  {
    MantToAgree(c, c[..n], n);
  }

  predicate IsIntProduct(a: int, b: int, p: int) {
    p == a * b
  }

  lemma TenTimesProduct(a: int, b: int, p: int)
    requires IsIntProduct(a, b, p)
    ensures IsIntProduct(a, 10 * b, 10 * p)
  {
  }

  lemma {:induction false} MantConcatTo(a: seq<int>, b: seq<int>, k: nat)
    requires k <= |b|
    ensures IsIntProduct(Mant(a), Pow10(k), MantTo(a + b, |a| + k) - MantTo(b, k))
  {
    if k == 0 {
      MantToAgree(a, a + b, |a|);
    } else {
      MantConcatTo(a, b, k - 1);
      TenTimesProduct(Mant(a), Pow10(k - 1), MantTo(a + b, |a| + k - 1) - MantTo(b, k - 1));
    }
  }

  lemma MantConcat(a: seq<int>, b: seq<int>)
    ensures Mant(a + b) == Mant(a) * Pow10(|b|) + Mant(b)
  {
    MantConcatTo(a, b, |b|);
  }

  lemma {:induction false} MantToRange(c: seq<int>, n: nat)
    requires IsDigits(c) && n <= |c|
    ensures 0 <= MantTo(c, n) < Pow10(n)
  {
    if n > 0 {
      MantToRange(c, n - 1);
    }
  }

  lemma MantRange(c: seq<int>)
    requires IsDigits(c)
    ensures 0 <= Mant(c) < Pow10(|c|)
  {
    MantToRange(c, |c|);
  }

  lemma {:induction false} MantToZeros(c: seq<int>, n: nat)
    requires n <= |c|
    requires forall i :: 0 <= i < n ==> c[i] == 0
    ensures MantTo(c, n) == 0
  {
    if n > 0 {
      MantToZeros(c, n - 1);
    }
  }

  /** A leading digit bounds the number from both sides. */
  lemma {:induction false} MantToLeading(c: seq<int>, n: nat)
    requires IsDigits(c) && 1 <= n <= |c|
    ensures c[0] * Pow10(n - 1) <= MantTo(c, n) < (c[0] + 1) * Pow10(n - 1)
  {
    if n > 1 {
      MantToLeading(c, n - 1);
      LeadingStep(c[0], c[n - 1], MantTo(c, n - 1), Pow10(n - 2));
    }
  }

  lemma LeadingStep(a: int, d: int, m: int, p: int)
    requires 0 <= d <= 9 && a * p <= m < (a + 1) * p
    ensures a * (10 * p) <= 10 * m + d < (a + 1) * (10 * p)
  {
    assert a * (10 * p) == 10 * (a * p);
    assert (a + 1) * (10 * p) == 10 * ((a + 1) * p);
  }

  lemma MantPositive(c: seq<int>)
    requires IsDigits(c) && |c| >= 1 && c[0] != 0
    ensures Mant(c) >= Pow10(|c| - 1) >= 1
  {
    MantToLeading(c, |c|);
    MulAtLeast(c[0], Pow10(|c| - 1));
  }

  lemma MulAtLeast(a: int, p: int)
    requires a >= 1 && p >= 0
    ensures a * p >= p
  {
  }

  lemma {:induction false} MantToPositive(c: seq<int>, n: nat, i: nat)
    requires IsDigits(c) && i < n <= |c| && c[i] != 0
    ensures MantTo(c, n) >= 1
  {
    MantToRange(c, n - 1);
    if i < n - 1 {
      MantToPositive(c, n - 1, i);
    }
  }

  // ---------------------------------------------------------------- Val

  /** The first digit counts 10^e, and every digit after n others 10^(e - n). */
  lemma ValueOfDigits(s: int, e: int, c: seq<int>, d: int)
    ensures Value(Num(s, e, [])) == 0.0
    ensures Value(Num(s, e, c + [d])) == Value(Num(s, e, c)) + (s * d) as real * Scale(e - |c|)
  {
    MantPush(c, d);
    ScaleStep(e - |c|);
    OneMoreDigit(s, Mant(c), d, Scale(e - |c|));
  }

  lemma OneMoreDigit(s: int, m: int, d: int, t: real)
    ensures (s * (10 * m + d)) as real * t == (s * m) as real * (10.0 * t) + (s * d) as real * t
  {
    assert s * (10 * m + d) == 10 * (s * m) + s * d;
  }

  lemma LeadingZeros(k: nat, c: seq<int>)
    ensures Mant(Zeros(k) + c) == Mant(c)
  {
    MantConcat(Zeros(k), c);
    MantToZeros(Zeros(k), k);
  }

  /** Zeros in front, with the exponent raised to match, change nothing. */
  lemma ValPrepend(s: int, e: int, c: seq<int>, k: nat)
    ensures Val(s, e + k, Zeros(k) + c) == Val(s, e, c)
  {
    LeadingZeros(k, c);
  }

  lemma MantAppend(c: seq<int>, k: nat)
    ensures IsIntProduct(Mant(c), Pow10(k), Mant(c + Zeros(k)))
  {
    MantConcatTo(c, Zeros(k), k);
    MantToZeros(Zeros(k), k);
  }

  lemma IntRealMul(m: int, p: int)
    ensures (m * p) as real == m as real * p as real
  {
  }

  lemma MoveFactor(s: int, m: int, p: int, mp: int, t: real, tp: real)
    requires IsIntProduct(m, p, mp) && IsProduct(t, p as real, tp)
    ensures (s * mp) as real * t == (s * m) as real * tp
  {
    assert s * mp == s * m * p;
    IntRealMul(s * m, p);
  }

  /** Zeros behind change nothing. */
  lemma ValAppend(s: int, e: int, c: seq<int>, k: nat)
    ensures Val(s, e, c + Zeros(k)) == Val(s, e, c)
  {
    MantAppend(c, k);
    ScaleProduct(e - (|c| + k) + 1, k);
    ScalePow10(k);
    MoveFactor(s, Mant(c), Pow10(k), Mant(c + Zeros(k)), Scale(e - (|c| + k) + 1), Scale(e - |c| + 1));
  }

  lemma ValShift(s: int, e: int, c: seq<int>)
    requires |c| >= 1 && c[0] == 0
    ensures Val(s, e, c) == Val(s, e - 1, c[1..])
  {
    assert c == Zeros(1) + c[1..];
    ValPrepend(s, e - 1, c[1..], 1);
  }

  lemma ValPop(s: int, e: int, c: seq<int>)
    requires |c| >= 1 && c[|c| - 1] == 0
    ensures Val(s, e, c) == Val(s, e, c[..|c| - 1])
  {
    assert c == c[..|c| - 1] + Zeros(1);
    ValAppend(s, e, c[..|c| - 1], 1);
  }

  /** A normal number is zero only in the form [0]. */
  lemma NormalZero(n: Num)
    requires Normal(n)
    ensures Value(n) == 0.0 <==> IsZero(n)
    ensures n.c[0] == 0 <==> IsZero(n)
    ensures !IsZero(n) ==> Mant(n.c) >= 1
  {
    if n.c[0] == 0 {
      assert Mant([0]) == 0;
      assert Value(n) == 0.0;
    } else {
      MantPositive(n.c);
      var m, t := n.s * Mant(n.c), Scale(n.e - |n.c| + 1);
      assert m != 0;
      assert m as real * t != 0.0;
    }
  }

  // ---------------------------------------------------------------- loops over digit arrays

  function Reversed(t: seq<int>): (r: seq<int>)
    ensures |r| == |t|
  {
    seq(|t|, i requires 0 <= i < |t| => t[|t| - 1 - i])
  }

  /** Reverse, push n zeros, reverse: the way plus and minus line up exponents. */
  method PrependZeros(t: seq<int>, n: nat) returns (r: seq<int>)
    ensures r == Zeros(n) + t
  {
    r := Reversed(t);
    var b := n;
    while b > 0
      invariant 0 <= b <= n
      invariant r == Reversed(t) + Zeros(n - b)
    {
      r := r + [0];
      b := b - 1;
      assert Zeros(n - b) == Zeros(n - b - 1) + [0];
    }
    r := Reversed(r);
  }

  /** Pops zeros off the end, stopping at a nonzero digit or the empty array. */
  method PopTrailingZeros(c: seq<int>, ghost s: int, ghost e: int) returns (r: seq<int>)
    requires IsDigits(c)
    ensures IsDigits(r)
    ensures r <= c && forall i :: |r| <= i < |c| ==> c[i] == 0
    ensures |r| > 0 ==> r[|r| - 1] != 0
    ensures Val(s, e, r) == Val(s, e, c)
  {
    r := c;
    var b := |c|;
    while b > 0 && r[b - 1] == 0
      invariant 0 <= b <= |c| && r == c[..b]
      invariant forall i :: b <= i < |c| ==> c[i] == 0
      invariant Val(s, e, r) == Val(s, e, c)
    {
      ValPop(s, e, r);
      b := b - 1;
      r := r[..|r| - 1];
    }
  }
}
