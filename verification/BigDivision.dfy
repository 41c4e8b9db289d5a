/**
 Long division (div), rounding to decimal places (round) and remainder (mod) of
 big.js. div is proved correctly rounded: its result is the quotient rounded to
 DP decimal places in the mode RM.
 */
module BigDivision {
  import opened BigNumber
  import opened DigitLoops
  import opened BigArithmetic
  import opened BigRounding
  import opened Wrappers

  /** The largest number of decimal places: a million. */
  const MAX_DP: int := 1000000

  // ---------------------------------------------------------------- dividend digits, with zeros behind

  function DigitAt(a: seq<int>, i: nat): int {
    if i < |a| then a[i] else 0
  }

  /** The first n digits of the dividend, which goes on with zeros, as a number. */
  function Taken(a: seq<int>, n: nat): int {
    if n == 0 then 0 else 10 * Taken(a, n - 1) + DigitAt(a, n - 1)
  }

  lemma {:induction false} TakenIsMantTo(a: seq<int>, b: seq<int>, n: nat)
    requires n <= |b| && forall i :: 0 <= i < n ==> b[i] == DigitAt(a, i)
    ensures Taken(a, n) == MantTo(b, n)
  {
    if n > 0 {
      TakenIsMantTo(a, b, n - 1);
    }
  }

  lemma {:induction false} TakenAtLeast(a: seq<int>, n: nat)
    requires IsDigits(a) && |a| >= 1 && a[0] != 0 && n >= 1
    ensures Taken(a, n) >= Pow10(n - 1)
  {
    if n > 1 {
      TakenAtLeast(a, n - 1);
    }
  }

  // ---------------------------------------------------------------- one quotient digit

  /** Compares divisor and remainder: by length, then digit by digit. */
  method CompareDigits(b: seq<int>, r: seq<int>) returns (cmp: int)
    requires IsDigits(b) && IsDigits(r) && |b| >= 1 && |r| >= 1
    requires b[0] != 0 && (r[0] != 0 || |r| == 1)
    ensures cmp == if Mant(b) > Mant(r) then 1 else if Mant(b) < Mant(r) then -1 else 0
  {
    if |b| != |r| {
      if |b| > |r| {
        ShorterIsLess(r, b);
      } else {
        ShorterIsLess(b, r);
      }
      return if |b| > |r| then 1 else -1;
    }
    var ri := 0;
    while ri < |b|
      invariant 0 <= ri <= |b|
      invariant forall q :: 0 <= q < ri ==> b[q] == r[q]
    {
      if b[ri] != r[ri] {
        MantToAgree(b, r, ri);
        if b[ri] > r[ri] {
          LessStays(r, b, ri + 1, |b|);
        } else {
          LessStays(b, r, ri + 1, |b|);
        }
        return if b[ri] > r[ri] then 1 else -1;
      }
      ri := ri + 1;
    }
    assert b == r;
    return 0;
  }

  lemma ShorterIsLess(x: seq<int>, y: seq<int>)
    requires IsDigits(x) && IsDigits(y) && |x| < |y| && y[0] != 0
    ensures Mant(x) < Mant(y)
  {
    MantRange(x);
    MantPositive(y);
    Pow10Monotone(|x|, |y| - 1);
  }

  /** Shifts the zeros off the front of a remainder that is not zero. */
  method ShiftZeros(r0: seq<int>) returns (r: seq<int>)
    requires IsDigits(r0) && Mant(r0) > 0
    ensures IsDigits(r) && |r| >= 1 && r[0] != 0 && Mant(r) == Mant(r0)
  {
    r := r0;
    NotEmpty(r);
    while r[0] == 0
      invariant IsDigits(r) && Mant(r) == Mant(r0) && |r| >= 1
      decreases |r|
    {
      assert r == Zeros(1) + r[1..];
      LeadingZeros(1, r[1..]);
      r := r[1..];
      NotEmpty(r);
    }
  }

  lemma NotEmpty(r: seq<int>)
    requires Mant(r) > 0
    ensures |r| >= 1
  {
  }

  /**
   Takes the divisor off a larger remainder, using bz, the divisor with a zero in front,
   if the remainder is longer.
   */
  method SubtractDivisor(r0: seq<int>, b: seq<int>, bz: seq<int>) returns (r: seq<int>)
    requires IsDigits(r0) && IsDigits(b) && bz == [0] + b
    requires |r0| == |b| || |r0| == |b| + 1
    requires Mant(b) < Mant(r0)
    ensures IsDigits(r) && |r| >= 1 && r[0] != 0
    ensures Mant(r) == Mant(r0) - Mant(b)
  {
    assert bz == Zeros(1) + b;
    LeadingZeros(1, b);
    var bt := if |r0| == |b| then b else bz;
    assert bt + Zeros(0) == bt;
    r := SubtractDigits(r0, bt, 0);
    r := ShiftZeros(r);
  }

  /**
   How often the divisor goes into the remainder, by repeated subtraction. The
   remainder left behind still holds the divisor itself when the division is exact.
   */
  method QuotientDigit(r0: seq<int>, b: seq<int>) returns (n: int, cmp: int, r: seq<int>)
    requires IsDigits(b) && IsDigits(r0) && |b| >= 1 && |r0| >= 1
    requires b[0] != 0 && (r0[0] != 0 || |r0| == 1)
    requires Mant(r0) < 10 * Mant(b)
    ensures 0 <= n <= 9 && IsDigits(r) && |r| >= 1 && (r[0] != 0 || |r| == 1)
    ensures 0 <= cmp <= 1 && (cmp == 0 ==> n >= 1)
    ensures IsIntProduct(n, Mant(b), Mant(r0) - if cmp == 0 then 0 else Mant(r))
    ensures cmp == 1 ==> 0 <= Mant(r) < Mant(b)
    ensures Mant(r0) == 0 ==> n == 0 && Mant(r) == 0
  {
    var bz := [0] + b;
    MantPositive(b);
    MantRange(r0);
    n := 0;
    r := r0;
    ghost var taken := 0;
    while true
      invariant 0 <= n <= 9 && IsDigits(r) && |r| >= 1 && (r[0] != 0 || |r| == 1)
      invariant IsIntProduct(n, Mant(b), taken) && taken == Mant(r0) - Mant(r)
      invariant n > 0 ==> Mant(r) > 0
      decreases 10 - n
    {
      MantRange(r);
      cmp := CompareDigits(b, r);
      if cmp >= 0 {
        break;
      }
      AtMostNine(n, Mant(b), taken, Mant(r0));
      RemainderLength(r, b, Mant(r0));
      r := SubtractDivisor(r, b, bz);
      OneMore(n, Mant(b), taken);
      taken := taken + Mant(b);
      n := n + 1;
    }
    if cmp == 0 {
      AtMostNine(n, Mant(b), taken, Mant(r0));
      OneMore(n, Mant(b), taken);
      n := n + 1;
    }
  }

  lemma OneMore(n: int, b: int, p: int)
    requires IsIntProduct(n, b, p)
    ensures IsIntProduct(n + 1, b, p + b)
  {
  }

  lemma AtMostNine(n: int, b: int, taken: int, r0: int)
    requires IsIntProduct(n, b, taken) && b >= 1 && taken + b <= r0 < 10 * b
    ensures n < 9
  {
    MulMonotoneStrict(n, 9, b);
  }

  lemma MulMonotoneStrict(a: int, k: int, b: int)
    requires b >= 1 && a * b < k * b
    ensures a < k
  {
  }

  /** The remainder is at most one digit longer than the divisor. */
  lemma RemainderLength(r: seq<int>, b: seq<int>, m: int)
    requires IsDigits(r) && IsDigits(b) && |b| >= 1 && |r| >= 1 && b[0] != 0 && (r[0] != 0 || |r| == 1)
    requires Mant(b) < Mant(r) <= m < 10 * Mant(b)
    ensures |r| == |b| || |r| == |b| + 1
  {
    MantRange(b);
    if |r| < |b| {
      ShorterIsLess(r, b);
    } else if |r| > |b| + 1 {
      MantPositive(r);
      Pow10Monotone(|b| + 1, |r| - 1);
    }
  }

  // ---------------------------------------------------------------- the loop of div

  /** qc is the integer part of the first n dividend digits over b, and rem the remainder. */
  ghost predicate Divided(qc: seq<int>, b: seq<int>, a: seq<int>, n: nat, rem: int) {
    IsIntProduct(Mant(qc), Mant(b), Taken(a, n) - rem) && 0 <= rem < Mant(b)
  }

  lemma DigitDivided(m: int, n: int, b: int, t: int, r: int, rem: int)
    requires IsIntProduct(10 * m, b, t - r) && IsIntProduct(n, b, r - rem)
    ensures IsIntProduct(10 * m + n, b, t - rem)
  {
  }

  /** Bringing down a digit. */
  lemma BroughtDown(qc: seq<int>, b: seq<int>, a: seq<int>, n: nat, rem: int, r: int)
    requires Divided(qc, b, a, n, rem) && r == 10 * rem + DigitAt(a, n) && IsDigits(a)
    ensures IsIntProduct(10 * Mant(qc), Mant(b), Taken(a, n + 1) - r)
    ensures r < 10 * Mant(b)
  {
    TenTimes(Mant(qc), Mant(b), Taken(a, n) - rem);
  }

  lemma TenTimes(a: int, b: int, p: int)
    requires IsIntProduct(a, b, p)
    ensures IsIntProduct(10 * a, b, 10 * p)
  {
  }

  /** At most one zero in front. */
  predicate OneZero(qc: seq<int>) {
    |qc| >= 2 && qc[0] == 0 ==> qc[1] != 0
  }

  /** The second quotient digit is not a second zero. */
  lemma SecondDigit(qc0: seq<int>, qc: seq<int>, b: seq<int>, a: seq<int>, rem: int)
    requires IsDigits(a) && IsDigits(b) && |a| >= 1 && |b| >= 1 && a[0] != 0
    requires OneZero(qc0) && |qc| == |qc0| + 1 && qc0 < qc
    requires Divided(qc, b, a, |b| + |qc0|, rem)
    ensures OneZero(qc)
  {
    if |qc| == 2 {
      TakenAtLeast(a, |b| + 1);
      MantRange(b);
      PositiveFactor(Mant(qc), Mant(b), Taken(a, |b| + 1) - rem);
      assert MantTo(qc, 1) == qc[0];
      assert MantTo(qc, 2) == 10 * MantTo(qc, 1) + qc[1];
    }
  }

  lemma PositiveFactor(a: int, b: int, p: int)
    requires IsIntProduct(a, b, p) && b >= 0 && p > 0
    ensures a >= 1
  {
  }

  lemma ZeroFactor(n: int, b: int, p: int)
    requires IsIntProduct(n, b, p) && p > 0
    ensures n != 0
  {
  }

  /** The remainder r, with the digit before ai brought down, is ready to be divided again. */
  ghost predicate Ready(qc: seq<int>, r: seq<int>, a: seq<int>, b: seq<int>, ai: nat) {
    && IsDigits(qc) && IsDigits(r) && |r| >= 1 && (r[0] != 0 || |r| == 1)
    && Mant(r) < 10 * Mant(b) && (Mant(r) == 0 ==> ai < |a|)
    && IsIntProduct(10 * Mant(qc), Mant(b), Taken(a, ai) - Mant(r))
  }

  /** Updates the remainder with the next digit of the dividend; [] stands for the undefined entry past its end. */
  method BringDown(r0: seq<int>, cmp: int, a: seq<int>, ai: nat, ghost rem: int) returns (r: seq<int>)
    requires IsDigits(r0) && IsDigits(a) && |r0| >= 1 && (r0[0] != 0 || |r0| == 1)
    requires rem == if cmp == 0 then 0 else Mant(r0)
    requires |a| >= 1 && a[|a| - 1] != 0
    ensures IsDigits(r) && (r == [] <==> rem == 0 && ai >= |a|)
    ensures r != [] ==> (r[0] != 0 || |r| == 1) && Mant(r) == 10 * rem + DigitAt(a, ai)
    ensures r != [] && Mant(r) == 0 ==> ai + 1 < |a|
  {
    if r0[0] != 0 && cmp != 0 {
      MantPush(r0, DigitAt(a, ai));
      MantToPositive(r0, |r0|, 0);
      r := r0 + [if ai < |a| then a[ai] else 0];
    } else {
      if cmp != 0 {
        assert r0 == [0] && MantTo(r0, 1) == 0;
      }
      r := if ai < |a| then [a[ai]] else [];
      assert r != [] ==> MantTo(r, 1) == DigitAt(a, ai);
    }
  }

  /** One turn of the loop: the next quotient digit, and the remainder with the next digit brought down. */
  method DivideOnce(qc0: seq<int>, r0: seq<int>, a: seq<int>, b: seq<int>, ai: nat)
    returns (qc: seq<int>, r: seq<int>, ghost rem: int)
    requires IsDigits(a) && IsDigits(b) && |a| >= 1 && |b| >= 1
    requires a[0] != 0 && b[0] != 0 && a[|a| - 1] != 0
    requires Ready(qc0, r0, a, b, ai) && ai == |b| + |qc0| && OneZero(qc0)
    ensures IsDigits(qc) && |qc| == |qc0| + 1 && OneZero(qc)
    ensures Divided(qc, b, a, ai, rem)
    ensures r == [] <==> rem == 0 && ai >= |a|
    ensures r == [] ==> qc[|qc0|] != 0
    ensures r != [] ==> Ready(qc, r, a, b, ai + 1)
  {
    var n, cmp, r1 := QuotientDigit(r0, b);
    rem := if cmp == 0 then 0 else Mant(r1);
    MantRange(r0);
    MantPositive(b);
    qc := qc0 + [n];
    MantPush(qc0, n);
    DigitDivided(Mant(qc0), n, Mant(b), Taken(a, ai), Mant(r0), rem);
    if Mant(r0) - rem > 0 {
      ZeroFactor(n, Mant(b), Mant(r0) - rem);
    }
    SecondDigit(qc0, qc, b, a, rem);
    r := BringDown(r1, cmp, a, ai, rem);
    if r != [] {
      BroughtDown(qc, b, a, ai, rem, Mant(r));
    }
  }

  /** The dividend's first digits make the remainder ready. */
  lemma FirstRemainder(a: seq<int>, b: seq<int>, r: seq<int>)
    requires IsDigits(a) && IsDigits(b) && |a| >= 1 && |b| >= 1 && a[0] != 0 && b[0] != 0
    requires |r| == |b| && forall i :: 0 <= i < |r| ==> r[i] == DigitAt(a, i)
    ensures Ready([], r, a, b, |b|)
  {
    TakenIsMantTo(a, r, |b|);
    MantPositive(r);
    MantPositive(b);
    MantRange(r);
    assert Pow10(|b|) == 10 * Pow10(|b| - 1);
  }

  /**
   Produces at most k + 1 quotient digits, stopping earlier when nothing of the
   dividend is left. more says whether anything is left.
   */
  method LongDivision(a: seq<int>, b: seq<int>, k0: nat) returns (qc: seq<int>, more: bool, ghost rem: int)
    requires IsDigits(a) && IsDigits(b) && |a| >= 1 && |b| >= 1
    requires a[0] != 0 && b[0] != 0 && a[|a| - 1] != 0
    ensures IsDigits(qc) && 1 <= |qc| <= k0 + 1
    ensures Divided(qc, b, a, |b| - 1 + |qc|, rem)
    ensures more <==> rem > 0 || |b| - 1 + |qc| < |a|
    ensures more ==> |qc| == k0 + 1
    ensures !more ==> qc[|qc| - 1] != 0
    ensures OneZero(qc)
  {
    var r := if |b| <= |a| then a[..|b|] else a;
    r := r + Zeros(|b| - |r|);
    FirstRemainder(a, b, r);
    var ai := |b|;
    var k: int := k0;
    qc := [];
    rem := 0;
    var looping := true;
    while looping
      invariant IsDigits(qc) && ai == |b| + |qc| && |qc| <= k0 + 1 && OneZero(qc)
      invariant looping ==> k >= 0 && |qc| + k == k0 && Ready(qc, r, a, b, ai)
      invariant !looping ==> |qc| >= 1 && Divided(qc, b, a, ai - 1, rem)
      invariant !looping ==> (r == [] <==> rem == 0 && ai - 1 >= |a|)
      invariant !looping ==> if r == [] then qc[|qc| - 1] != 0 else |qc| == k0 + 1
      decreases if looping then k + 1 else 0
    {
      qc, r, rem := DivideOnce(qc, r, a, b, ai);
      if ai < |a| || r != [] {
        looping := k != 0;
        k := k - 1;
      } else {
        looping := false;
      }
      ai := ai + 1;
    }
    more := r != [];
  }

  // ---------------------------------------------------------------- the quotient as a real number

  lemma {:induction false} TakenBeyond(a: seq<int>, n: nat)
    requires n >= |a|
    ensures IsIntProduct(Mant(a), Pow10(n - |a|), Taken(a, n))
  {
    if n == |a| {
      TakenIsMantTo(a, a, n);
    } else {
      TakenBeyond(a, n - 1);
      TenTimesProduct(Mant(a), Pow10(n - 1 - |a|), Taken(a, n - 1));
    }
  }

  /** The dividend in units of its digit n: its first n digits, and a rest unless they are all. */
  lemma DividendInUnits(a: seq<int>, n: nat, g: real)
    requires IsDigits(a) && |a| >= 1 && a[|a| - 1] != 0
    requires g == ScaledBy(Mant(a) as real, n - |a|)
    ensures Taken(a, n) as real <= g < Taken(a, n) as real + 1.0
    ensures g == Taken(a, n) as real <==> n >= |a|
  {
    if n >= |a| {
      WholeDividend(a, n);
    } else {
      TakenIsMantTo(a, a, n);
      TailRange(a, n, |a|);
      TailOfMant(a, n, |a|);
      Unscale(Mant(a) as real, |a| - n);
      FloorOfQuotient(g, Mant(a) as real, Pow10(|a| - n), Taken(a, n), Mant(a) - Tail(a, n, |a|));
    }
  }

  lemma WholeDividend(a: seq<int>, n: nat)
    requires n >= |a|
    ensures ScaledBy(Mant(a) as real, n - |a|) == Taken(a, n) as real
  {
    TakenBeyond(a, n);
    ScalePow10(n - |a|);
    IntRealMul(Mant(a), Pow10(n - |a|));
  }

  /** The quotient in units of its last digit: its digits, and a rest exactly if more. */
  lemma QuotientInUnits(qc: seq<int>, b: seq<int>, a: seq<int>, n: nat, rem: int, g: real, w: real)
    requires IsDigits(a) && |a| >= 1 && a[|a| - 1] != 0 && Mant(b) >= 1
    requires Divided(qc, b, a, n, rem)
    requires g == ScaledBy(Mant(a) as real, n - |a|) && IsProduct(w, Mant(b) as real, g)
    ensures Mant(qc) as real <= w < Mant(qc) as real + 1.0
    ensures w != Mant(qc) as real <==> rem > 0 || n < |a|
  {
    DividendInUnits(a, n, g);
    FloorOfQuotient(w, g, Mant(b), Mant(qc), Taken(a, n) - rem);
  }

  lemma ScaledTwice(w: real, a: int, b: int)
    ensures ScaledBy(ScaledBy(w, a), b) == ScaledBy(w, a + b)
  {
    ScaleProduct(a, b);
    ProductAssociates(w, Scale(a), Scale(b), Scale(a + b));
  }

  lemma ProductAssociates(w: real, u: real, v: real, uv: real)
    requires IsProduct(u, v, uv)
    ensures w * u * v == w * uv
  {
    assert w * u * v == w * (u * v);
  }

  lemma ScaledProduct(w: real, b: real, g: real, z: int, u: int)
    requires IsProduct(w, b, g)
    ensures IsProduct(ScaledBy(w, z), ScaledBy(b, u), ScaledBy(g, z + u))
  {
    ScaleProduct(z, u);
    FourFactors(w, Scale(z), b, Scale(u), g, Scale(z + u));
  }

  lemma FourFactors(w: real, t: real, b: real, u: real, g: real, tu: real)
    requires IsProduct(w, b, g) && IsProduct(t, u, tu)
    ensures IsProduct(w * t, b * u, g * tu)
  {
    assert (w * t) * (b * u) == (w * b) * (t * u);
  }

  function Magnitude(n: Num): real {
    ScaledBy(Mant(n.c) as real, n.e - |n.c| + 1)
  }

  lemma ValueOfMagnitude(n: Num)
    requires Normal(n)
    ensures Value(n) == SignTimes(n.s, Magnitude(n))
    ensures Magnitude(n) >= 0.0 && (Magnitude(n) > 0.0 <==> !IsZero(n))
  {
    ValOfUnits(n.s, n.e, n.c);
    NormalZero(n);
    MantRange(n.c);
    ProductOrder(0.0, Mant(n.c) as real, Scale(n.e - |n.c| + 1));
  }

  /** The magnitude of x over that of y is the quotient w in units of the last quotient digit. */
  lemma QuotientMagnitude(x: Num, y: Num, qlen: nat, w: real)
    requires Normal(x) && Normal(y) && !IsZero(y)
    requires IsProduct(w, Mant(y.c) as real, ScaledBy(Mant(x.c) as real, |y.c| - 1 + qlen - |x.c|))
    ensures Magnitude(y) > 0.0
    ensures Magnitude(x) / Magnitude(y) == ScaledBy(w, x.e - y.e - qlen + 1)
  {
    var z, u, n := x.e - y.e - qlen + 1, y.e - |y.c| + 1, |y.c| - 1 + qlen - |x.c|;
    ValueOfMagnitude(y);
    ScaledProduct(w, Mant(y.c) as real, ScaledBy(Mant(x.c) as real, n), z, u);
    ScaledTwice(Mant(x.c) as real, n, z + u);
    assert n + (z + u) == x.e - |x.c| + 1;
    DivideProduct(ScaledBy(w, z), Magnitude(y), Magnitude(x));
  }

  lemma DivideProduct(q: real, y: real, x: real)
    requires IsProduct(q, y, x) && y > 0.0
    ensures x / y == q
  {
  }

  lemma SignedQuotient(sx: int, sy: int, mx: real, my: real)
    requires IsSign(sx) && IsSign(sy) && my > 0.0
    ensures SignTimes(sy, my) != 0.0
    ensures SignTimes(sx, mx) / SignTimes(sy, my) == SignTimes(if sx == sy then 1 else -1, mx / my)
  {
    var q := mx / my;
    assert q * my == mx;
    assert (-q) * my == -mx;
    assert (-q) * (-my) == mx;
  }

  lemma RoundedZero(rm: int)
    ensures RoundedUnits(0.0, rm) == 0
  {
    WholeUnits(0, rm);
  }

  /** Rounding a signed magnitude given in units of 10^u. */
  lemma RoundedOf(s: int, w: real, u: int, dp: int, rm: int)
    requires IsSign(s) && w >= 0.0
    ensures Rounded(SignTimes(s, ScaledBy(w, u)), dp, rm) == InUnits(s, RoundedUnits(ScaledBy(w, u + dp), rm), -dp)
  {
    ScaledTwice(w, u, dp);
    ProductOrder(0.0, w, Scale(u));
    if w == 0.0 {
      assert ScaledBy(w, u + dp) == 0.0;
      RoundedZero(rm);
    }
  }

  // ---------------------------------------------------------------- the methods

  /** x / y rounded to maker.DP decimal places in the mode maker.RM. */
  method Div(x: Big, y0: Big) returns (r: Outcome<Big>)
    requires Normal(x.Num()) && Normal(y0.Num())
    ensures x.maker.DP < 0 || x.maker.DP > 1000000 ==> r == Err(InvalidDecimalPlaces)
    ensures 0 <= x.maker.DP <= 1000000 && Value(y0.Num()) == 0.0 ==> r == Err(DivisionByZero)
    ensures 0 <= x.maker.DP <= 1000000 && Value(y0.Num()) != 0.0 && r.Err? ==>
      r.error == InvalidRoundingMode && !(0 <= x.maker.RM <= 3)
    ensures r.Ok? ==> fresh(r.value) && Normal(r.value.Num()) && r.value.maker == x.maker
    ensures r.Ok? ==> Value(y0.Num()) != 0.0 && r.value.s == if x.s == y0.s then 1 else -1
    ensures r.Ok? && 0 <= x.maker.RM <= 3 ==>
      Value(r.value.Num()) == Rounded(Value(x.Num()) / Value(y0.Num()), x.maker.DP, x.maker.RM)
    ensures r.Ok? && !(0 <= x.maker.RM <= 3) ==>
      Value(r.value.Num()) == Value(x.Num()) / Value(y0.Num())
  {
    var y := new Big.Copy(x.maker, y0);
    var a, b := x.c, y.c;
    var k := if x.s == y.s then 1 else -1;
    var dp := x.maker.DP;
    if dp < 0 || dp > MAX_DP {
      return Err(InvalidDecimalPlaces);
    }
    NormalZero(x.Num());
    NormalZero(y0.Num());
    if b[0] == 0 {
      return Err(DivisionByZero);
    }
    if a[0] == 0 {
      y.s, y.c, y.e := k, [0], 0;
      ZeroQuotient(y.Num(), Value(y0.Num()), dp, x.maker.RM);
      return Ok(y);
    }
    r := DivideNonzero(x, y, k, dp);
  }

  lemma ZeroQuotient(z: Num, y: real, dp: int, rm: int)
    requires Normal(z) && IsZero(z) && y != 0.0
    ensures Value(z) == 0.0 / y == Rounded(0.0 / y, dp, rm)
  {
    NormalZero(z);
    assert 0.0 / y == 0.0;
    RoundedOf(1, 0.0, 0, dp, rm);
    RoundedZero(rm);
    assert ScaledBy(0.0, 0) == 0.0 && ScaledBy(0.0, 0 + dp) == 0.0;
  }

  /** The main part of div: the quotient y takes the place of the copied divisor. */
  method DivideNonzero(x: Big, y: Big, k: int, dp: int) returns (r: Outcome<Big>)
    requires Normal(x.Num()) && Normal(y.Num()) && !IsZero(x.Num()) && !IsZero(y.Num()) && x != y
    requires k == (if x.s == y.s then 1 else -1) && dp >= 0
    modifies y
    ensures old(Value(y.Num())) != 0.0
    ensures r.Err? ==> r.error == InvalidRoundingMode && !IsMode(x.maker.RM)
    ensures r.Ok? ==> r.value == y && Normal(y.Num()) && y.s == k
    ensures r.Ok? && IsMode(x.maker.RM) ==>
      Value(y.Num()) == Rounded(Value(x.Num()) / old(Value(y.Num())), dp, x.maker.RM)
    ensures r.Ok? && !IsMode(x.maker.RM) ==>
      Value(y.Num()) == Value(x.Num()) / old(Value(y.Num()))
  {
    var qc, e, p, qi, more, w := QuotientDigits(x.Num(), y.Num(), k, dp);
    RoundedOf(k, w, e - |qc| + 1, dp, x.maker.RM);
    assert e - |qc| + 1 + dp == p - |qc|;
    y.s, y.e, y.c := k, e, qc;
    if qi > p {
      r := RoundQuotient(y, p, x.maker.RM, more, w);
    } else {
      KeepDigits(k, e, qc, p, x.maker.RM);
      ValOfUnits(k, e, qc);
      r := Ok(y);
    }
  }

  /** Rounds the quotient to p digits. */
  method RoundQuotient(q: Big, p: int, rm: int, more: bool, ghost w: real) returns (r: Outcome<Big>)
    requires IsSign(q.s) && CutOff(q.c, q.e, p, more, w)
    modifies q
    ensures r.Err? ==> r.error == InvalidRoundingMode && !IsMode(rm)
    ensures r.Ok? ==> IsMode(rm) && r.value == q && Normal(q.Num()) && q.s == old(q.s)
    ensures r.Ok? ==>
      var units := RoundedUnits(ScaledBy(w, p - |old(q.c)|), rm);
      Value(q.Num()) == InUnits(q.s, units, old(q.e) - p + 1)
  {
    r := Round(q, p, rm, more, w);
  }

  lemma RealQuotient(g: real, b: real) returns (w: real)
    requires b != 0.0
    ensures IsProduct(w, b, g)
  {
    w := g / b;
  }

  /** The quotient as a magnitude w in units of the last digit of qc. */
  lemma QuotientFacts(x: Num, y: Num, k: int, qc: seq<int>, rem: int) returns (w: real)
    requires Normal(x) && Normal(y) && !IsZero(x) && !IsZero(y) && |qc| >= 1
    requires k == if x.s == y.s then 1 else -1
    requires Divided(qc, y.c, x.c, |y.c| - 1 + |qc|, rem)
    ensures Mant(qc) as real <= w < Mant(qc) as real + 1.0
    ensures w != Mant(qc) as real <==> rem > 0 || |y.c| - 1 + |qc| < |x.c|
    ensures Value(y) != 0.0
    ensures Value(x) / Value(y) == SignTimes(k, ScaledBy(w, x.e - y.e - |qc| + 1))
  {
    NormalZero(x);
    NormalZero(y);
    var g := ScaledBy(Mant(x.c) as real, |y.c| - 1 + |qc| - |x.c|);
    w := RealQuotient(g, Mant(y.c) as real);
    QuotientInUnits(qc, y.c, x.c, |y.c| - 1 + |qc|, rem, g, w);
    QuotientValue(x, y, k, |qc|, w);
  }

  /** The digits of the quotient without a zero in front, with the places p they are to be rounded to. */
  method QuotientDigits(x: Num, y: Num, k: int, dp: int)
    returns (qc: seq<int>, e: int, p: int, qi: int, more: bool, ghost w: real)
    requires Normal(x) && Normal(y) && !IsZero(x) && !IsZero(y)
    requires k == (if x.s == y.s then 1 else -1) && dp >= 0
    ensures p == dp + e + 1 && w >= 0.0
    ensures Value(y) != 0.0 && Value(x) / Value(y) == SignTimes(k, ScaledBy(w, e - |qc| + 1))
    ensures qi > p ==> CutOff(qc, e, p, more, w)
    ensures qi <= p ==> !more && w == Mant(qc) as real && |qc| <= p && Normal(Num(k, e, qc))
  {
    NormalZero(x);
    NormalZero(y);
    var a, b := x.c, y.c;
    e := x.e - y.e;
    p := dp + e + 1;
    ghost var rem;
    qc, more, rem := LongDivision(a, b, if p < 0 then 0 else p);
    qi := |qc|;
    w := QuotientFacts(x, y, k, qc, rem);
    MantRange(qc);
    if qc[0] == 0 && qi != 1 {
      assert qc == Zeros(1) + qc[1..];
      LeadingZeros(1, qc[1..]);
      qc := qc[1..];
      e := e - 1;
      p := p - 1;
    }
  }

  lemma QuotientValue(x: Num, y: Num, k: int, qlen: nat, w: real)
    requires Normal(x) && Normal(y) && !IsZero(y)
    requires k == if x.s == y.s then 1 else -1
    requires IsProduct(w, Mant(y.c) as real, ScaledBy(Mant(x.c) as real, |y.c| - 1 + qlen - |x.c|))
    ensures Value(y) != 0.0
    ensures Value(x) / Value(y) == SignTimes(k, ScaledBy(w, x.e - y.e - qlen + 1))
  {
    QuotientMagnitude(x, y, qlen, w);
    ValueOfMagnitude(x);
    ValueOfMagnitude(y);
    SignedQuotient(x.s, y.s, Magnitude(x), Magnitude(y));
  }

  /** x rounded to dp decimal places; a negative dp rounds to a multiple of a power of ten. */
  method RoundTo(x0: Big, dp: int, rm: int) returns (r: Outcome<Big>)
    requires Normal(x0.Num())
    ensures dp < -1000000 || dp > 1000000 ==> r == Err(InvalidDecimalPlaces)
    ensures -1000000 <= dp <= 1000000 && !(0 <= rm <= 3) ==> r == Err(InvalidRoundingMode)
    ensures -1000000 <= dp <= 1000000 && 0 <= rm <= 3 ==>
      && r.Ok? && fresh(r.value) && Normal(r.value.Num()) && r.value.s == x0.s
      && Value(r.value.Num()) == Rounded(Value(x0.Num()), dp, rm)
  {
    if dp < -MAX_DP || dp > MAX_DP {
      return Err(InvalidDecimalPlaces);
    }
    var x := new Big.Copy(x0.maker, x0);
    ghost var w := Mant(x.c) as real;
    NormalZero(x.Num());
    MantRange(x.c);
    ValueOfMagnitude(x.Num());
    RoundedOf(x.s, w, x.e - |x.c| + 1, dp, rm);
    assert x.e - |x.c| + 1 + dp == dp + x.e + 1 - |x.c|;
    r := Round(x, dp + x.e + 1, rm, false, w);
  }

  // ---------------------------------------------------------------- what rounding promises

  /** Rounding a magnitude gives a whole number of units of 10^-dp, the sign of a number makes no difference. */
  lemma RoundedInUnits(v: real, dp: int, rm: int)
    ensures v >= 0.0 ==> IsProduct(Rounded(v, dp, rm), Scale(dp), RoundedUnits(ScaledBy(v, dp), rm) as real)
    ensures v < 0.0 ==> Rounded(v, dp, rm) == -Rounded(-v, dp, rm)
  {
    if v >= 0.0 {
      WholeUnitsOf(RoundedUnits(ScaledBy(v, dp), rm) as real, dp);
    }
  }

  lemma WholeUnitsOf(n: real, dp: int)
    ensures IsProduct(ScaledBy(n, -dp), Scale(dp), n)
  {
    ScaledTwice(n, -dp, dp);
    ScaleByOne(n);
  }

  lemma NearestUnits(t: real, rm: int, n: int)
    requires rm == 1 || rm == 2
    ensures Abs(n as real - t) >= Abs(RoundedUnits(t, rm) as real - t)
  {
    var f := t.Floor;
    if n <= f {
      assert n as real <= f as real;
    } else {
      assert n as real >= (f + 1) as real;
    }
  }

  lemma FactorOut(a: real, b: real, u: real)
    requires u > 0.0
    ensures IsProduct(a - b, u, a * u - b * u)
  {
  }

  lemma AbsProduct(d: real, u: real, p: real)
    requires u > 0.0 && IsProduct(d, u, p)
    ensures IsProduct(Abs(d), u, Abs(p))
  {
    ProductOrder(d, 0.0, u);
    assert (-d) * u == -p;
  }

  lemma FurtherProduct(d: real, e: real, u: real, p: real, q: real)
    requires u > 0.0 && d >= e && IsProduct(d, u, p) && IsProduct(e, u, q)
    ensures p >= q
  {
  }

  lemma CloserUnits(n: real, r: real, t: real, z: int)
    requires Abs(n - t) >= Abs(r - t)
    ensures Abs(ScaledBy(n, z) - ScaledBy(t, z)) >= Abs(ScaledBy(r, z) - ScaledBy(t, z))
  {
    var u := Scale(z);
    var p, q := ScaledBy(n, z) - ScaledBy(t, z), ScaledBy(r, z) - ScaledBy(t, z);
    FactorOut(n, t, u);
    FactorOut(r, t, u);
    AbsProduct(n - t, u, p);
    AbsProduct(r - t, u, q);
    FurtherProduct(Abs(n - t), Abs(r - t), u, Abs(p), Abs(q));
  }

  lemma ScaleByOne(v: real)
    ensures ScaledBy(v, 0) == v
  {
    assert Scale(0) == 1.0;
  }

  lemma MagnitudeIsNearest(v: real, dp: int, rm: int, n: int)
    requires rm == 1 || rm == 2
    ensures Abs(ScaledBy(n as real, -dp) - v) >= Abs(RoundedMagnitude(v, dp, rm) - v)
  {
    var t := ScaledBy(v, dp);
    ScaledTwice(v, dp, -dp);
    ScaleByOne(v);
    assert ScaledBy(t, -dp) == v;
    NearestUnits(t, rm, n);
    CloserUnits(n as real, RoundedUnits(t, rm) as real, t, -dp);
  }

  /** In the two nearest modes no other multiple of 10^-dp is closer to v than the rounded value. */
  lemma RoundedIsNearest(v: real, dp: int, rm: int, n: int)
    requires rm == 1 || rm == 2
    ensures Abs(ScaledBy(n as real, -dp) - v) >= Abs(Rounded(v, dp, rm) - v)
  {
    if v < 0.0 {
      MagnitudeIsNearest(-v, dp, rm, -n);
      NegatedUnits(n, -dp);
    } else {
      MagnitudeIsNearest(v, dp, rm, n);
    }
  }

  lemma NegatedUnits(n: int, z: int)
    ensures ScaledBy((-n) as real, z) == -ScaledBy(n as real, z)
  {
    NegativeProduct(n, Scale(z));
  }
}
