/**
 Rounding: what it means to round a real number to a decimal place in each of
 the four modes, and the in-place rounding of a digit array that implements it.
 */
module BigRounding {
  import opened BigNumber
  import opened DigitLoops
  import opened BigArithmetic
  import opened Wrappers

  datatype Error = InvalidNumber | InvalidDecimalPlaces | InvalidRoundingMode | DivisionByZero

  type Outcome<+T> = Result<T, Error>

  predicate IsMode(rm: int) {
    0 <= rm <= 3
  }

  /** Whether a part f of a unit above n units is rounded up, in modes down, half-up, half-even and up. */
  predicate RoundsUp(n: int, f: real, rm: int) {
    || (rm == 1 && f >= 0.5)
    || (rm == 2 && (f > 0.5 || (f == 0.5 && n % 2 != 0)))
    || (rm == 3 && f > 0.0)
  }

  /** The magnitude t rounded to a whole number of units. */
  function RoundedUnits(t: real, rm: int): int {
    t.Floor + if RoundsUp(t.Floor, t - t.Floor as real, rm) then 1 else 0
  }

  function Abs(v: real): real {
    if v < 0.0 then -v else v
  }

  /** v * 10^k */
  function ScaledBy(v: real, k: int): real {
    v * Scale(k)
  }

  /** The magnitude v rounded to dp decimal places; dp may be negative. */
  function RoundedMagnitude(v: real, dp: int, rm: int): real {
    ScaledBy(RoundedUnits(ScaledBy(v, dp), rm) as real, -dp)
  }

  /** The real v rounded to dp decimal places. */
  function Rounded(v: real, dp: int, rm: int): real {
    if v < 0.0 then -RoundedMagnitude(-v, dp, rm) else RoundedMagnitude(v, dp, rm)
  }

  // ---------------------------------------------------------------- what the definition of rounding promises

  /** Rounding moves by less than one unit, and by at most half a unit in the two nearest modes. */
  lemma RoundedUnitsNear(t: real, rm: int)
    requires 0 <= rm <= 3 && t >= 0.0
    ensures -1.0 < RoundedUnits(t, rm) as real - t < 1.0
    ensures rm == 0 ==> RoundedUnits(t, rm) as real <= t
    ensures rm == 3 ==> RoundedUnits(t, rm) as real >= t
    ensures rm == 1 ==> -0.5 < RoundedUnits(t, rm) as real - t <= 0.5
    ensures rm == 2 ==> -0.5 <= RoundedUnits(t, rm) as real - t <= 0.5
    ensures rm == 2 && (RoundedUnits(t, rm) as real - t == 0.5 || t - RoundedUnits(t, rm) as real == 0.5) ==>
      RoundedUnits(t, rm) % 2 == 0
    ensures RoundedUnits(t, rm) >= 0
  {
  }

  /**
   What each mode gives: the whole number below, the nearest one with ties going up, the
   nearest one with ties going to an even one, the whole number above.
   */
  lemma RoundedUnitsExact(t: real, rm: int, n: int)
    requires t >= 0.0
    ensures rm == 0 ==> (n == RoundedUnits(t, rm) <==> n as real <= t < n as real + 1.0)
    ensures rm == 1 ==> (n == RoundedUnits(t, rm) <==> -0.5 < n as real - t <= 0.5)
    ensures rm == 2 ==>
      (n == RoundedUnits(t, rm) <==> -0.5 < n as real - t < 0.5 || (Abs(n as real - t) == 0.5 && n % 2 == 0))
    ensures rm == 3 ==> (n == RoundedUnits(t, rm) <==> n as real - 1.0 < t <= n as real)
  {
    var f := t.Floor;
    if n <= f - 1 {
      assert n as real <= f as real - 1.0;
    } else if n >= f + 2 {
      assert n as real >= f as real + 2.0;
    }
  }

  lemma WholeUnits(n: int, rm: int)
    ensures RoundedUnits(n as real, rm) == n
  {
    assert (n as real).Floor == n;
  }

  // ---------------------------------------------------------------- floors of scaled reals

  /** t is w / p: how w compares with multiples of p decides the floor of t and how its fraction compares with 1/2. */
  lemma FloorOfQuotient(t: real, w: real, p: int, n: int, np: int)
    requires p >= 1 && IsIntProduct(n, p, np) && IsProduct(t, p as real, w)
    requires np as real <= w < np as real + p as real
    ensures t.Floor == n
    ensures t - n as real > 0.0 <==> w > np as real
    ensures t - n as real >= 0.5 <==> 2.0 * (w - np as real) >= p as real
    ensures t - n as real == 0.5 <==> 2.0 * (w - np as real) == p as real
  {
    IntRealMul(n, p);
    var f := t - n as real;
    assert f * p as real == w - np as real;
    FractionOfUnit(f, p as real, w - np as real);
  }

  lemma FractionOfUnit(f: real, p: real, r: real)
    requires p >= 1.0 && f * p == r && 0.0 <= r < p
    ensures 0.0 <= f < 1.0
    ensures f > 0.0 <==> r > 0.0
    ensures f >= 0.5 <==> 2.0 * r >= p
    ensures f == 0.5 <==> 2.0 * r == p
  {
    ProductOrder(0.0, f, p);
    ProductOrder(f, 1.0, p);
    ProductOrder(0.5, f, p);
    ProductOrder(f, 0.5, p);
  }

  lemma ProductOrder(a: real, b: real, p: real)
    requires p > 0.0
    ensures a < b <==> a * p < b * p
    ensures a == b <==> a * p == b * p
  {
  }

  // ---------------------------------------------------------------- round

  /** The digit test of round for 1 <= sd < length: whether the digits from sd on round up. */
  predicate DigitsRoundUp(c: seq<int>, sd: nat, rm: int, more: bool)
    requires 1 <= sd < |c|
  {
    || (rm == 1 && c[sd] >= 5)
    || (rm == 2 && (c[sd] > 5 || (c[sd] == 5 && (more || sd + 1 < |c| || c[sd - 1] % 2 == 1))))
    || (rm == 3 && (more || c[0] != 0))
  }

  /**
   What round may be told: c holds the digits of a magnitude w in units of the
   last place, cut off; more says that something was cut off. A number from the
   long division has up to one digit too many and may end in zero only if cut off.
   */
  ghost predicate CutOff(c: seq<int>, e: int, sd: int, more: bool, w: real) {
    && IsDigits(c) && |c| >= 1
    && Mant(c) as real <= w < Mant(c) as real + 1.0
    && (more <==> w != Mant(c) as real)
    && (c[0] == 0 ==> |c| == 1)
    && (more ==> sd < |c|)
    && (!more && c[0] != 0 ==> c[|c| - 1] != 0)
    && (!more && c[0] == 0 ==> e == 0)
  }

  /** The digits from sd to m, as a number. */
  function Tail(c: seq<int>, sd: nat, m: nat): int
    requires sd <= m <= |c|
  {
    if m == sd then 0 else 10 * Tail(c, sd, m - 1) + c[m - 1]
  }

  lemma {:induction false} TailRange(c: seq<int>, sd: nat, m: nat)
    requires IsDigits(c) && sd <= m <= |c|
    ensures 0 <= Tail(c, sd, m) < Pow10(m - sd)
    ensures sd < m && c[m - 1] != 0 ==> Tail(c, sd, m) > 0
  {
    if sd < m {
      TailRange(c, sd, m - 1);
    }
  }

  lemma {:induction false} TailOfMant(c: seq<int>, sd: nat, m: nat)
    requires sd <= m <= |c|
    ensures IsIntProduct(MantTo(c, sd), Pow10(m - sd), MantTo(c, m) - Tail(c, sd, m))
  {
    if sd < m {
      TailOfMant(c, sd, m - 1);
      TenTimesProduct(MantTo(c, sd), Pow10(m - 1 - sd), MantTo(c, m - 1) - Tail(c, sd, m - 1));
    }
  }

  lemma {:induction false} TailHead(c: seq<int>, sd: nat, m: nat)
    requires sd < m <= |c|
    ensures IsIntProduct(c[sd], Pow10(m - sd - 1), Tail(c, sd, m) - Tail(c, sd + 1, m))
  {
    if sd + 1 < m {
      TailHead(c, sd, m - 1);
      TenTimesProduct(c[sd], Pow10(m - sd - 2), Tail(c, sd, m - 1) - Tail(c, sd + 1, m - 1));
    }
  }

  /** The tail's first digit against 5 is the tail against half a unit. */
  lemma TailAgainstHalf(d: int, q: int, tail: int, rest: int)
    requires 0 <= d <= 9 && 0 <= rest < q && IsIntProduct(d, q, tail - rest)
    ensures d >= 5 ==> 2 * tail >= 10 * q
    ensures d <= 4 ==> 2 * tail + 2 <= 10 * q
    ensures 2 * tail == 10 * q <==> d == 5 && rest == 0
    ensures d > 5 ==> 2 * tail > 10 * q
    ensures tail + 1 <= 10 * q
  {
    if d >= 6 {
      assert d * q >= 6 * q;
    } else if d <= 4 {
      assert d * q <= 4 * q;
    }
    assert d * q <= 9 * q;
  }

  /** A magnitude cut off after the digits c, against the unit of place sd. */
  lemma HalfOfTail(c: seq<int>, sd: nat, more: bool, w: real)
    requires IsDigits(c) && sd < |c|
    requires Mant(c) as real <= w < Mant(c) as real + 1.0
    requires more <==> w != Mant(c) as real
    requires !more && sd + 1 < |c| ==> c[|c| - 1] != 0
    ensures var np := Mant(c) - Tail(c, sd, |c|); var p := Pow10(|c| - sd);
      && np as real <= w < np as real + p as real
      && (more || c[|c| - 1] != 0 ==> np as real < w)
      && (2.0 * (w - np as real) >= p as real <==> c[sd] >= 5)
      && (2.0 * (w - np as real) == p as real <==> c[sd] == 5 && !more && sd + 1 == |c|)
  {
    TailRange(c, sd, |c|);
    TailRange(c, sd + 1, |c|);
    TailHead(c, sd, |c|);
    TailAgainstHalf(c[sd], Pow10(|c| - sd - 1), Tail(c, sd, |c|), Tail(c, sd + 1, |c|));
  }

  // ---------------------------------------------------------------- the three branches of round

  /** t is the magnitude w in units of place sd, when w has digits beyond that place. */
  lemma UnitsAt(c: seq<int>, sd: nat, more: bool, w: real, t: real)
    requires CutOffDigits(c, more, w) && sd < |c| && IsProduct(t, Pow10(|c| - sd) as real, w)
    requires !more && sd + 1 < |c| ==> c[|c| - 1] != 0
    ensures t.Floor == MantTo(c, sd)
    ensures t - t.Floor as real >= 0.5 <==> c[sd] >= 5
    ensures t - t.Floor as real == 0.5 <==> c[sd] == 5 && !more && sd + 1 == |c|
    ensures more || c[|c| - 1] != 0 ==> t - t.Floor as real > 0.0
  {
    var np := Mant(c) - Tail(c, sd, |c|);
    HalfOfTail(c, sd, more, w);
    TailOfMant(c, sd, |c|);
    FloorOfQuotient(t, w, Pow10(|c| - sd), MantTo(c, sd), np);
  }

  ghost predicate CutOffDigits(c: seq<int>, more: bool, w: real) {
    && IsDigits(c) && |c| >= 1
    && Mant(c) as real <= w < Mant(c) as real + 1.0
    && (more <==> w != Mant(c) as real)
  }

  lemma Unscale(w: real, m: nat)
    ensures IsProduct(ScaledBy(w, -(m as int)), Pow10(m) as real, w)
  {
    ScaleProduct(-(m as int), m);
    ScalePow10(m);
    Cancel(w, Scale(-(m as int)), Scale(m));
  }

  lemma Cancel(w: real, u: real, v: real)
    requires IsProduct(u, v, 1.0)
    ensures IsProduct(w * u, v, w)
  {
    assert w * u * v == w * (u * v);
  }

  /** A place left of all the digits: less than half a unit. */
  lemma UnitsFarLeft(c: seq<int>, sd: int, w: real, more: bool, t: real)
    requires CutOffDigits(c, more, w) && sd < 0 && IsProduct(t, Pow10(|c| - sd) as real, w)
    ensures t.Floor == 0 && 0.0 <= t < 0.5 && (t > 0.0 <==> w > 0.0)
  {
    MantRange(c);
    Pow10Add(|c|, -sd - 1);
    assert Pow10(|c| - sd) == 10 * Pow10(|c| - sd - 1);
    Pow10Monotone(|c|, |c| - sd - 1);
    FloorOfQuotient(t, w, Pow10(|c| - sd), 0, 0);
  }

  function SignTimes(s: int, v: real): real {
    if s < 0 then -v else v
  }

  /** n units of size 10^z with the sign s. */
  function InUnits(s: int, n: int, z: int): real {
    SignTimes(s, ScaledBy(n as real, z))
  }

  lemma ValOfUnits(s: int, e: int, c: seq<int>)
    requires IsSign(s)
    ensures Val(s, e, c) == InUnits(s, Mant(c), e - |c| + 1)
  {
    NegativeProduct(Mant(c), Scale(e - |c| + 1));
    if s < 0 {
      assert s * Mant(c) == -Mant(c);
    }
  }

  lemma ValOfDigit(s: int, e: int, d: int)
    requires IsSign(s)
    ensures Val(s, e, [d]) == InUnits(s, d, e)
  {
    ValOfUnits(s, e, [d]);
    assert MantTo([d], 1) == d;
  }

  lemma ZeroUnits(s: int, z: int, z': int)
    ensures InUnits(s, 0, z) == InUnits(s, 0, z')
  {
    assert 0 as real * Scale(z) == 0.0 && 0 as real * Scale(z') == 0.0;
  }

  /** No digits beyond place sd: a whole number of units, which stands for the same magnitude. */
  lemma WholeAt(m: int, k: nat, rm: int)
    ensures IsIntProduct(m, Pow10(k), RoundedUnits(ScaledBy(m as real, k), rm))
  {
    var n := m * Pow10(k);
    assert ScaledBy(m as real, k) == n as real by {
      ScalePow10(k);
      IntRealMul(m, Pow10(k));
    }
    WholeUnits(n, rm);
  }

  lemma RescaleUnits(s: int, m: int, k: nat, units: int, z: int)
    requires IsIntProduct(m, Pow10(k), units)
    ensures InUnits(s, m, z + k) == InUnits(s, units, z)
  {
    ScaleProduct(z, k);
    ScalePow10(k);
    RescaleReals(m, Pow10(k), units, Scale(z), Scale(z + k));
  }

  lemma RescaleReals(m: int, p: int, mp: int, t: real, tp: real)
    requires IsIntProduct(m, p, mp) && IsProduct(t, p as real, tp)
    ensures m as real * tp == mp as real * t
  {
    IntRealMul(m, p);
  }

  /** The branch sd >= length of round: nothing to do. */
  lemma KeepDigits(s: int, e: int, c: seq<int>, sd: int, rm: int)
    requires IsSign(s) && sd >= |c|
    ensures Val(s, e, c) == InUnits(s, RoundedUnits(ScaledBy(Mant(c) as real, sd - |c|), rm), e - sd + 1)
  {
    WholeAt(Mant(c), sd - |c|, rm);
    RescaleUnits(s, Mant(c), sd - |c|, RoundedUnits(ScaledBy(Mant(c) as real, sd - |c|), rm), e - sd + 1);
    ValOfUnits(s, e, c);
    assert e - sd + 1 + (sd - |c|) == e - |c| + 1;
  }

  /** Adds one in the last place; a carry out of the front puts a 1 there and raises the exponent. */
  method IncrementDigits(c0: seq<int>, e0: int) returns (c: seq<int>, e: int)
    requires IsDigits(c0) && |c0| >= 1 && c0[0] != 0
    ensures IsDigits(c) && |c| >= 1 && c[0] != 0
    ensures e - |c| == e0 - |c0| && Mant(c) == Mant(c0) + 1
  {
    c, e := c0, e0;
    var sd := |c|;
    while true
      invariant 1 <= sd <= |c| == |c0| && e == e0 && IsDigits(c)
      invariant forall i :: 0 <= i < sd ==> c[i] == c0[i]
      invariant forall i :: sd <= i < |c| ==> c[i] == 0 && c0[i] == 9
      decreases sd
    {
      sd := sd - 1;
      if c[sd] + 1 <= 9 {
        c := c[sd := c[sd] + 1];
        MantToAgree(c, c0, sd);
        ZerosForNines(c0, c, sd + 1, |c|);
        return;
      }
      c := c[sd := 0];
      if sd == 0 {
        e := e + 1;
        OneAndZeros(c0, c, |c|);
        c := [1] + c;
        return;
      }
    }
  }

  lemma {:induction false} ZerosForNines(x: seq<int>, r: seq<int>, i: nat, j: nat)
    requires |x| == |r| && i <= j <= |x|
    requires MantTo(r, i) == MantTo(x, i) + 1
    requires forall q :: i <= q < j ==> r[q] == 0 && x[q] == 9
    ensures MantTo(r, j) == MantTo(x, j) + 1
  {
    if i < j {
      ZerosForNines(x, r, i, j - 1);
    }
  }

  lemma {:induction false} OneAndZeros(x: seq<int>, r: seq<int>, j: nat)
    requires |x| == |r| && j <= |x|
    requires forall q :: 0 <= q < j ==> r[q] == 0 && x[q] == 9
    ensures MantTo([1] + r, j + 1) == MantTo(x, j) + 1
  {
    if j > 0 {
      OneAndZeros(x, r, j - 1);
    }
  }

  lemma Parity(m: int, d: int)
    ensures (10 * m + d) % 2 == d % 2
  {
  }

  /** The units that the digits round to, in the branch 1 <= sd < length. */
  lemma UnitsInside(c: seq<int>, sd: nat, rm: int, more: bool, w: real, t: real)
    requires CutOffDigits(c, more, w) && 1 <= sd < |c| && IsMode(rm) && c[0] != 0
    requires IsProduct(t, Pow10(|c| - sd) as real, w)
    requires !more ==> c[|c| - 1] != 0
    ensures RoundedUnits(t, rm) == MantTo(c, sd) + if DigitsRoundUp(c, sd, rm, more) then 1 else 0
  {
    UnitsAt(c, sd, more, w, t);
    Parity(MantTo(c, sd - 1), c[sd - 1]);
  }

  /** The digit test of round for sd < 1: whether the whole magnitude rounds up to one unit. */
  predicate WholeRoundsUp(c: seq<int>, sd: int, rm: int, more: bool)
    requires |c| >= 1
  {
    || (rm == 3 && (more || c[0] != 0))
    || (sd == 0 && ((rm == 1 && c[0] >= 5) || (rm == 2 && (c[0] > 5 || (c[0] == 5 && (more || |c| > 1))))))
  }

  lemma UnitsOutside(c: seq<int>, e: int, sd: int, rm: int, more: bool, w: real, t: real)
    requires CutOff(c, e, sd, more, w) && sd < 1 && IsMode(rm)
    requires IsProduct(t, Pow10(|c| - sd) as real, w)
    ensures RoundedUnits(t, rm) == if WholeRoundsUp(c, sd, rm, more) then 1 else 0
  {
    if c[0] != 0 {
      MantPositive(c);
    } else {
      assert c == [0] && MantTo(c, 1) == 0;
    }
    assert w > 0.0 <==> more || c[0] != 0;
    if sd == 0 {
      UnitsAt(c, 0, more, w, t);
      if c[0] == 0 && !more {
        assert w == 0.0;
        ProductOrder(0.0, t, Pow10(|c|) as real);
      }
    } else {
      UnitsFarLeft(c, sd, w, more, t);
    }
  }

  /** The branch sd < 1 of round: one unit or zero. */
  method RoundWhole(c0: seq<int>, e0: int, sd: int, rm: int, more: bool, ghost w: real, ghost s: int)
    returns (c: seq<int>, e: int)
    requires IsSign(s) && IsMode(rm) && CutOff(c0, e0, sd, more, w) && sd < 1
    ensures Normal(Num(s, e, c))
    ensures Val(s, e, c) == InUnits(s, RoundedUnits(ScaledBy(w, sd - |c0|), rm), e0 - sd + 1)
  {
    Unscale(w, |c0| - sd);
    UnitsOutside(c0, e0, sd, rm, more, w, ScaledBy(w, sd - |c0|));
    if WholeRoundsUp(c0, sd, rm, more) {
      c, e := [1], e0 - sd + 1;
    } else {
      c, e := [0], 0;
      ZeroUnits(s, e, e0 - sd + 1);
    }
    ValOfDigit(s, e, c[0]);
  }

  /** The branch 1 <= sd < length of round: cut, perhaps add one, and drop zeros. */
  method RoundInside(c0: seq<int>, e0: int, sd: int, rm: int, more: bool, ghost w: real, ghost s: int)
    returns (c: seq<int>, e: int)
    requires IsSign(s) && IsMode(rm) && CutOff(c0, e0, sd, more, w) && 1 <= sd < |c0|
    ensures Normal(Num(s, e, c))
    ensures Val(s, e, c) == InUnits(s, RoundedUnits(ScaledBy(w, sd - |c0|), rm), e0 - sd + 1)
  {
    Unscale(w, |c0| - sd);
    UnitsInside(c0, sd, rm, more, w, ScaledBy(w, sd - |c0|));
    MantPrefix(c0, sd);
    c, e := c0[..sd], e0;
    if DigitsRoundUp(c0, sd, rm, more) {
      c, e := IncrementDigits(c, e);
    }
    ValOfUnits(s, e, c);
    assert c[0] != 0;
    c := PopTrailingZeros(c, s, e);
    assert |c| > 0;
  }

  /**
   Rounds x in place to sd significant digits. The magnitude w, in units of the
   last place of x, is what x stands for before it was cut off.
   */
  method Round(x: Big, sd: int, rm: int, more: bool, ghost w: real) returns (r: Outcome<Big>)
    requires IsSign(x.s) && CutOff(x.c, x.e, sd, more, w)
    modifies x
    ensures !IsMode(rm) ==> r == Err(InvalidRoundingMode) && unchanged(x)
    ensures IsMode(rm) ==> r == Ok(x) && Normal(x.Num()) && x.s == old(x.s)
    ensures IsMode(rm) ==>
      var units := RoundedUnits(ScaledBy(w, sd - |old(x.c)|), rm);
      Value(x.Num()) == InUnits(x.s, units, old(x.e) - sd + 1)
  {
    if !IsMode(rm) {
      return Err(InvalidRoundingMode);
    }
    r := Ok(x);
    if sd < 1 {
      x.c, x.e := RoundWhole(x.c, x.e, sd, rm, more, w, x.s);
    } else if sd < |x.c| {
      x.c, x.e := RoundInside(x.c, x.e, sd, rm, more, w, x.s);
    } else {
      assert !more;
      KeepDigits(x.s, x.e, x.c, sd, rm);
    }
  }
}
