/**
 The arithmetic methods of big.js: cmp, plus, minus and times, as methods of a
 class whose fields are those of a Big, proved exact for numbers in normal form.
 */
module BigArithmetic {
  import opened BigNumber
  import opened DigitLoops

  /** The settings a Big constructor carries: division places and rounding mode. */
  class BigConstructor {
    var DP: int
    var RM: int

    constructor (dp: int, rm: int)
      ensures DP == dp && RM == rm
    {
      DP := dp;
      RM := rm;
    }
  }

  // ---------------------------------------------------------------- aligned digit arrays

  function PadTo(c: seq<int>, n: nat): (p: seq<int>)
    requires |c| <= n
    ensures |p| == n
  {
    c + Zeros(n - |c|)
  }

  lemma SumProduct(s: int, a: int, b: int, z: int, t: real)
    requires z == a + b
    ensures (s * z) as real * t == (s * a) as real * t + (s * b) as real * t
  {
    assert s * z == s * a + s * b;
    assert ((s * a) as real + (s * b) as real) * t == (s * a) as real * t + (s * b) as real * t;
  }

  /** Arrays with the same unit add up as their natural numbers do. */
  lemma ValSum(s: int, e: int, a: seq<int>, b: seq<int>, e': int, z: seq<int>)
    requires |a| == |b| && e' - |z| == e - |a|
    requires Mant(z) == Mant(a) + Mant(b)
    ensures Val(s, e', z) == Val(s, e, a) + Val(s, e, b)
  {
    SumProduct(s, Mant(a), Mant(b), Mant(z), Scale(e - |a| + 1));
  }

  lemma NegativeProduct(m: int, t: real)
    ensures (-m) as real * t == -(m as real * t)
  {
  }

  lemma ValNegate(s: int, e: int, c: seq<int>)
    ensures Val(-s, e, c) == -Val(s, e, c)
  {
    assert -s * Mant(c) == -(s * Mant(c));
    NegativeProduct(s * Mant(c), Scale(e - |c| + 1));
  }

  lemma LessProduct(a: int, b: int, t: real)
    requires a < b && t > 0.0
    ensures a as real * t < b as real * t
  {
  }

  lemma ValLess(e: int, a: seq<int>, b: seq<int>)
    requires |a| == |b| && Mant(a) < Mant(b)
    ensures Val(1, e, a) < Val(1, e, b)
  {
    LessProduct(1 * Mant(a), 1 * Mant(b), Scale(e - |a| + 1));
  }

  /** The first differing digit decides. */
  lemma FirstDifference(x: seq<int>, y: seq<int>, q: nat, n: nat)
    requires IsDigits(x) && IsDigits(y) && |x| <= n && |y| <= n
    requires q < |x| && q < |y| && x[q] < y[q]
    requires forall i :: 0 <= i < q ==> x[i] == y[i]
    ensures Mant(PadTo(x, n)) < Mant(PadTo(y, n))
  {
    var u, v := PadTo(x, n), PadTo(y, n);
    MantToAgree(u, v, q);
    LessStays(u, v, q + 1, n);
  }

  /** A prefix is at most the whole, and less if the whole ends in a nonzero digit. */
  lemma PrefixAtMost(x: seq<int>, y: seq<int>, n: nat)
    requires IsDigits(x) && IsDigits(y) && |x| <= |y| <= n
    requires forall i :: 0 <= i < |x| ==> x[i] == y[i]
    ensures Mant(PadTo(x, n)) <= Mant(PadTo(y, n))
    ensures |x| < |y| && y[|y| - 1] != 0 ==> Mant(PadTo(x, n)) < Mant(PadTo(y, n))
  {
    PrefixAtMostTo(x, y, n, n);
  }

  lemma {:induction false} PrefixAtMostTo(x: seq<int>, y: seq<int>, n: nat, m: nat)
    requires IsDigits(x) && IsDigits(y) && |x| <= |y| <= n && |x| <= m <= n
    requires forall i :: 0 <= i < |x| ==> x[i] == y[i]
    ensures MantTo(PadTo(x, n), m) <= MantTo(PadTo(y, n), m)
    ensures |x| < |y| <= m && y[|y| - 1] != 0 ==> MantTo(PadTo(x, n), m) < MantTo(PadTo(y, n), m)
  {
    if m == |x| {
      MantToAgree(PadTo(x, n), PadTo(y, n), m);
    } else {
      PrefixAtMostTo(x, y, n, m - 1);
    }
  }

  lemma ValPad(s: int, e: int, c: seq<int>, n: nat)
    requires |c| <= n
    ensures Val(s, e, PadTo(c, n)) == Val(s, e, c)
  {
    ValAppend(s, e, c, n - |c|);
  }

  /** The order of two arrays with one exponent is the order of their padded numbers. */
  lemma PadLess(e: int, x: seq<int>, y: seq<int>, n: nat)
    requires |x| <= n && |y| <= n && Mant(PadTo(x, n)) < Mant(PadTo(y, n))
    ensures Val(1, e, x) < Val(1, e, y)
  {
    ValPad(1, e, x, n);
    ValPad(1, e, y, n);
    ValLess(e, PadTo(x, n), PadTo(y, n));
  }

  /** A number with the larger exponent is larger. */
  lemma ExponentOrder(ex: int, x: seq<int>, ey: int, y: seq<int>)
    requires IsDigits(x) && IsDigits(y) && |x| >= 1 && |y| >= 1
    requires y[0] != 0 && ex < ey
    ensures Val(1, ex, x) < Val(1, ey, y)
  {
    var z := Zeros(ey - ex) + x;
    ValPrepend(1, ex, x, ey - ex);
    FirstDifference(z, y, 0, |z| + |y|);
    PadLess(ey, z, y, |z| + |y|);
  }

  // ---------------------------------------------------------------- addition of one sign

  lemma OneOrMore(a: int, p: int)
    requires p < a * p
    ensures a != 1
  {
  }

  lemma LeadingNonzero(z: seq<int>)
    requires IsDigits(z) && |z| >= 1 && Mant(z) >= Pow10(|z| - 1)
    ensures z[0] != 0
  {
    MantToLeading(z, |z|);
    OneOrMore(z[0] + 1, Pow10(|z| - 1));
  }

  /** A sum with no carry keeps a nonzero leading digit. */
  lemma LeadingSum(a: seq<int>, b: seq<int>, z: seq<int>)
    requires IsDigits(a) && IsDigits(b) && IsDigits(z) && |a| == |b| == |z| >= 1
    requires a[0] != 0 || b[0] != 0
    requires Mant(z) == Mant(a) + Mant(b)
    ensures z[0] != 0
  {
    MantRange(a);
    MantRange(b);
    if a[0] != 0 {
      MantPositive(a);
    } else {
      MantPositive(b);
    }
    LeadingNonzero(z);
  }

  lemma CarryValue(s: int, e: int, a: seq<int>, b: seq<int>, k: int, z: seq<int>)
    requires IsDigits(a) && IsDigits(b) && IsDigits(z) && 0 <= k <= 1
    requires 1 <= |b| <= |a| == |z|
    requires a[0] != 0 || b[0] != 0
    requires Mant([k] + z) == Mant(a) + Mant(PadTo(b, |a|))
    ensures k != 0 ==> Val(s, e + 1, [k] + z) == Val(s, e, a) + Val(s, e, b)
    ensures k == 0 ==> Val(s, e, z) == Val(s, e, a) + Val(s, e, b) && z[0] != 0
  {
    ValSum(s, e, a, PadTo(b, |a|), e + 1, [k] + z);
    ValPad(s, e, b, |a|);
    if k == 0 {
      ValShift(s, e + 1, [k] + z);
      assert ([k] + z)[1..] == z;
      assert [k] + z == Zeros(1) + z;
      LeadingZeros(1, z);
      LeadingSum(a, PadTo(b, |a|), z);
    }
  }

  /** The part of plus after the exponents have been made equal. */
  method AddAligned(xc0: seq<int>, yc0: seq<int>, e0: int, ghost s: int) returns (c: seq<int>, e: int)
    requires IsSign(s) && IsDigits(xc0) && IsDigits(yc0) && |xc0| >= 1 && |yc0| >= 1
    requires xc0[0] != 0 || yc0[0] != 0
    ensures Normal(Num(s, e, c)) && c[0] != 0
    ensures Val(s, e, c) == Val(s, e0, xc0) + Val(s, e0, yc0)
  {
    var xc, yc := xc0, yc0;
    if |xc| - |yc| < 0 {
      xc, yc := yc, xc;
    }
    var z, k := AddDigits(xc, yc);
    CarryValue(s, e0, xc, yc, k, z);
    e := e0;
    if k != 0 {
      z := [k] + z;
      e := e + 1;
    }
    c := PopTrailingZeros(z, s, e);
    assert z[0] != 0;
    assert |c| > 0;
    assert c[0] == z[0];
  }

  // ---------------------------------------------------------------- subtraction of one sign

  /** Shifts zeros off the front, lowering the exponent. */
  method ShiftLeadingZeros(c0: seq<int>, e0: int, ghost s: int) returns (c: seq<int>, e: int)
    requires IsDigits(c0)
    ensures IsDigits(c) && Val(s, e, c) == Val(s, e0, c0)
    ensures |c| <= |c0| && (|c| > 0 ==> c[0] != 0 && c[|c| - 1] == c0[|c0| - 1])
    ensures |c| == 0 ==> Val(s, e, c) == 0.0
  {
    c, e := c0, e0;
    while |c| > 0 && c[0] == 0
      invariant IsDigits(c) && |c| <= |c0| && Val(s, e, c) == Val(s, e0, c0)
      invariant |c| > 0 ==> c[|c| - 1] == c0[|c0| - 1]
    {
      ValShift(s, e, c);
      c := c[1..];
      e := e - 1;
    }
    if |c| == 0 {
      ValEmpty(s, e);
    }
  }

  lemma ValEmpty(s: int, e: int)
    ensures Val(s, e, []) == 0.0
  {
    assert s * Mant([]) == 0;
  }

  lemma DifferenceValue(s: int, e: int, x: seq<int>, y: seq<int>, z: seq<int>, n: nat)
    requires |x| <= n && |y| <= n && |z| == n
    requires Mant(z) == Mant(PadTo(x, n)) - Mant(PadTo(y, n))
    ensures Val(s, e, z) == Val(s, e, x) - Val(s, e, y)
  {
    ValSum(s, e, z, PadTo(y, n), e, PadTo(x, n));
    ValPad(s, e, x, n);
    ValPad(s, e, y, n);
  }

  /** The part of minus after the larger array has been put in xc: xc - yc, without zeros at either end. */
  method SubtractAligned(xc0: seq<int>, yc: seq<int>, a: nat, e0: int, ghost s: int) returns (c: seq<int>, e: int)
    requires IsDigits(xc0) && IsDigits(yc) && a <= |yc|
    requires forall i :: 0 <= i < a ==> yc[i] == 0
    requires Mant(PadTo(xc0, |xc0| + |yc|)) >= Mant(PadTo(yc, |xc0| + |yc|))
    ensures IsDigits(c) && Val(s, e, c) == Val(s, e0, xc0) - Val(s, e0, yc)
    ensures |c| > 0 ==> c[0] != 0 && c[|c| - 1] != 0
    ensures |c| == 0 ==> Val(s, e, c) == 0.0
  {
    var xc := xc0;
    if |yc| - |xc| > 0 {
      xc := xc + Zeros(|yc| - |xc|);
    }
    ghost var n := |xc|;
    assert xc == PadTo(xc0, n);
    PadOrder(yc, xc0, n, |xc0| + |yc|);
    xc := SubtractDigits(xc, yc, a);
    DifferenceValue(s, e0, xc0, yc, xc, n);
    xc := PopTrailingZeros(xc, s, e0);
    c, e := ShiftLeadingZeros(xc, e0, s);
  }

  lemma TimesPositive(a: int, b: int, p: int)
    requires p >= 1 && a * p <= b * p
    ensures a <= b
  {
  }

  /** More padding does not change the order. */
  lemma PadOrder(x: seq<int>, y: seq<int>, n: nat, m: nat)
    requires |x| <= n <= m && |y| <= n
    requires Mant(PadTo(x, m)) <= Mant(PadTo(y, m))
    ensures Mant(PadTo(x, n)) <= Mant(PadTo(y, n))
  {
    assert PadTo(x, m) == PadTo(x, n) + Zeros(m - n);
    assert PadTo(y, m) == PadTo(y, n) + Zeros(m - n);
    MantAppend(PadTo(x, n), m - n);
    MantAppend(PadTo(y, n), m - n);
    TimesPositive(Mant(PadTo(x, n)), Mant(PadTo(y, n)), Pow10(m - n));
  }

  // ---------------------------------------------------------------- the class

  function Sign(r: real): int {
    if r < 0.0 then -1 else if r > 0.0 then 1 else 0
  }

  function Negated(n: Num): Num {
    n.(s := -n.s)
  }

  lemma ValueNegated(n: Num)
    ensures Value(Negated(n)) == -Value(n)
    ensures Normal(n) ==> Normal(Negated(n))
  {
    ValNegate(n.s, n.e, n.c);
  }

  lemma SignOfNormal(n: Num)
    requires Normal(n)
    ensures Sign(Value(n)) == if IsZero(n) then 0 else n.s
  {
    NormalZero(n);
    if !IsZero(n) {
      LessProduct(0, Mant(n.c), Scale(n.e - |n.c| + 1));
      NegativeProduct(Mant(n.c), Scale(n.e - |n.c| + 1));
      assert 1 * Mant(n.c) == Mant(n.c) && -1 * Mant(n.c) == -Mant(n.c);
    }
  }

  /** For numbers of one sign, the order of the magnitudes decides. */
  lemma SignOfDifference(x: Num, y: Num)
    requires IsSign(x.s) && x.s == y.s
    ensures Sign(Value(x) - Value(y)) == x.s * Sign(Val(1, x.e, x.c) - Val(1, y.e, y.c))
  {
    ValNegate(1, x.e, x.c);
    ValNegate(1, y.e, y.c);
  }

  class Big {
    const maker: BigConstructor
    var s: int
    var e: int
    var c: seq<int>

    function Num(): Num
      reads this
    {
      BigNumber.Num.Num(s, e, c)
    }

    constructor (maker: BigConstructor, n: Num)
      ensures this.maker == maker && Num() == n
    {
      this.maker := maker;
      s, e, c := n.s, n.e, n.c;
    }

    constructor Copy(maker: BigConstructor, n: Big)
      ensures this.maker == maker && Num() == n.Num()
    {
      this.maker := maker;
      s, e, c := n.s, n.e, n.c;
    }

    /** Numeric order. */
    method Cmp(y0: Big) returns (r: int)
      requires Normal(Num()) && Normal(y0.Num())
      ensures r == 0 <==> Value(Num()) == Value(y0.Num())
      ensures r == 1 <==> Value(Num()) > Value(y0.Num())
      ensures r == -1 <==> Value(Num()) < Value(y0.Num())
    {
      var y := new Big.Copy(maker, y0);
      var xc, yc, k, l := c, y.c, e, y.e;
      SignOfNormal(Num());
      SignOfNormal(y.Num());
      NormalZero(Num());
      NormalZero(y.Num());
      if xc[0] == 0 || yc[0] == 0 {
        return if xc[0] == 0 then (if yc[0] == 0 then 0 else -y.s) else s;
      }
      if s != y.s {
        return s;
      }
      var isneg := s < 0;
      SignOfDifference(Num(), y.Num());
      if k != l {
        if k < l {
          ExponentOrder(k, xc, l, yc);
        } else {
          ExponentOrder(l, yc, k, xc);
        }
        return if (k > l) != isneg then 1 else -1;
      }
      var j := if |xc| < |yc| then |xc| else |yc|;
      var i := 0;
      while i < j
        invariant 0 <= i <= j
        invariant forall q :: 0 <= q < i ==> xc[q] == yc[q]
      {
        if xc[i] != yc[i] {
          if xc[i] < yc[i] {
            FirstDifference(xc, yc, i, |xc| + |yc|);
            PadLess(e, xc, yc, |xc| + |yc|);
          } else {
            FirstDifference(yc, xc, i, |xc| + |yc|);
            PadLess(e, yc, xc, |xc| + |yc|);
          }
          return if (xc[i] > yc[i]) != isneg then 1 else -1;
        }
        i := i + 1;
      }
      if |xc| < |yc| {
        PrefixAtMost(xc, yc, |yc|);
        PadLess(e, xc, yc, |yc|);
      } else if |xc| > |yc| {
        PrefixAtMost(yc, xc, |xc|);
        PadLess(e, yc, xc, |xc|);
      } else {
        assert xc == yc;
      }
      return if |xc| == |yc| then 0 else if (|xc| > |yc|) != isneg then 1 else -1;
    }

    /** Exact addition; a zero keeps its sign only when both operands are zeros of that sign. */
    method Plus(y0: Big) returns (y: Big)
      requires Normal(Num()) && Normal(y0.Num())
      ensures fresh(y) && y.maker == maker
      ensures Normal(y.Num()) && Value(y.Num()) == Value(Num()) + Value(y0.Num())
      ensures y.c == [0] ==> y.s == if c == [0] && y0.c == [0] && s == y0.s then s else 1
      decreases if s != y0.s then 1 else 0
    {
      y := new Big.Copy(maker, y0);
      NormalZero(Num());
      NormalZero(y0.Num());
      if s != y.s {
        y.s := -y.s;
        ValueNegated(y0.Num());
        y := Minus(y);
        return;
      }
      var xe, xc, ye, yc := e, c, y.e, y.c;
      if xc[0] == 0 || yc[0] == 0 {
        if yc[0] == 0 {
          if xc[0] != 0 {
            y := new Big.Copy(maker, this);
          } else {
            y.s := s;
          }
        }
        return;
      }
      var d := xe - ye;
      if d != 0 {
        if d > 0 {
          ValPrepend(s, ye, yc, d);
          ye := xe;
          yc := PrependZeros(yc, d);
        } else {
          ValPrepend(s, xe, xc, -d);
          xc := PrependZeros(xc, -d);
        }
      }
      xc, ye := AddAligned(xc, yc, ye, s);
      y.c := xc;
      y.e := ye;
    }

    /** Exact subtraction: the second operand with the other sign is added. */
    method Minus(y0: Big) returns (y: Big)
      requires Normal(Num()) && Normal(y0.Num())
      ensures fresh(y) && y.maker == maker
      ensures Normal(y.Num()) && Value(y.Num()) == Value(Num()) - Value(y0.Num())
      ensures y.c == [0] ==> y.s == if c == [0] && y0.c == [0] && s == -y0.s then s else 1
      decreases if s != y0.s then 1 else 0
    {
      y := new Big.Copy(maker, y0);
      NormalZero(Num());
      NormalZero(y0.Num());
      ValueNegated(y0.Num());
      if s != y.s {
        y.s := -y.s;
        y := Plus(y);
        return;
      }
      var xc, xe, yc, ye := c, e, y.c, y.e;
      if xc[0] == 0 || yc[0] == 0 {
        if yc[0] != 0 {
          y.s := -y.s;
        } else if xc[0] != 0 {
          y := new Big.Copy(maker, this);
        } else {
          y.s := 1;
        }
        return;
      }
      y.s, y.e, y.c := Difference(s, xe, xc, ye, yc);
    }

    /** Exact multiplication; the sign is the product of the signs, also on zero. */
    method Times(y0: Big) returns (y: Big)
      requires Normal(Num()) && Normal(y0.Num())
      ensures fresh(y) && y.maker == maker
      ensures Normal(y.Num()) && IsProduct(Value(Num()), Value(y0.Num()), Value(y.Num()))
      ensures y.s == if s == y0.s then 1 else -1
    {
      y := new Big.Copy(maker, y0);
      var xc, yc, i, j := c, y.c, e, y.e;
      y.s := if s == y.s then 1 else -1;
      NormalZero(Num());
      NormalZero(y0.Num());
      if xc[0] == 0 || yc[0] == 0 {
        y.c, y.e := [0], 0;
        NormalZero(y.Num());
        ProductWithZero(Value(Num()), Value(y0.Num()));
        return;
      }
      y.e := i + j;
      if |xc| < |yc| {
        xc, yc := yc, xc;
      }
      var digits, b := MultiplyDigits(xc, yc);
      if |c| < |y0.c| {
        ProductCommutes(Mant(xc), Mant(yc), Mant(digits));
      }
      ProductValue(Num(), y0.Num(), y.s, digits);
      AtMostOneZero(c, y0.c, digits);
      if b != 0 {
        y.e := y.e + 1;
      } else {
        ValShift(y.s, y.e + 1, digits);
        digits := digits[1..];
      }
      digits := PopTrailingZeros(digits, y.s, y.e);
      y.c := digits;
    }
  }

  /** The difference of nonzero numbers of the sign s. */
  method Difference(s: int, xe: int, xc: seq<int>, ye: int, yc: seq<int>) returns (rs: int, re: int, rc: seq<int>)
    requires IsSign(s) && IsDigits(xc) && IsDigits(yc) && |xc| >= 1 && |yc| >= 1 && xc[0] != 0 && yc[0] != 0
    ensures Normal(Num(rs, re, rc)) && Val(rs, re, rc) == Val(s, xe, xc) - Val(s, ye, yc)
    ensures rc == [0] ==> rs == 1
  {
    var c, d, a, xlty;
    c, d, re, a, xlty := LineUp(xc, xe, yc, ye, s);
    rs := s;
    if xlty {
      c, d := d, c;
      rs := -s;
      ValNegate(s, re, c);
      ValNegate(s, re, d);
    }
    rc, re := SubtractAligned(c, d, a, re, rs);
    if |rc| == 0 {
      rs, re, rc := 1, 0, [0];
      NormalZero(Num(rs, re, rc));
    }
  }

  /** Makes the exponents equal and finds the larger number; a counts the zeros put in front. */
  method LineUp(xc0: seq<int>, xe: int, yc0: seq<int>, ye: int, ghost s: int)
    returns (xc: seq<int>, yc: seq<int>, e: int, a: int, xlty: bool)
    requires IsDigits(xc0) && IsDigits(yc0) && |xc0| >= 1 && |yc0| >= 1
    requires xc0[0] != 0 && yc0[0] != 0
    ensures IsDigits(xc) && IsDigits(yc)
    ensures Val(s, e, xc) == Val(s, xe, xc0) && Val(s, e, yc) == Val(s, ye, yc0)
    ensures 0 <= a <= if xlty then |xc| else |yc|
    ensures forall i :: 0 <= i < a ==> (if xlty then xc[i] else yc[i]) == 0
    ensures xlty ==> Mant(PadTo(xc, |xc| + |yc|)) <= Mant(PadTo(yc, |xc| + |yc|))
    ensures !xlty ==> Mant(PadTo(yc, |xc| + |yc|)) <= Mant(PadTo(xc, |xc| + |yc|))
  {
    xc, yc, e, a := xc0, yc0, ye, xe - ye;
    if a != 0 {
      xlty := a < 0;
      if xlty {
        a := -a;
        ValPrepend(s, xe, xc, a);
        xc := PrependZeros(xc, a);
        FirstDifference(xc, yc, 0, |xc| + |yc|);
      } else {
        ValPrepend(s, ye, yc, a);
        e := xe;
        yc := PrependZeros(yc, a);
        FirstDifference(yc, xc, 0, |xc| + |yc|);
      }
    } else {
      xlty := SmallerDigits(xc, yc);
    }
  }

  /** Whether x is the smaller of two arrays with one exponent, by digits and then by length. */
  method SmallerDigits(xc: seq<int>, yc: seq<int>) returns (xlty: bool)
    requires IsDigits(xc) && IsDigits(yc)
    ensures xlty ==> Mant(PadTo(xc, |xc| + |yc|)) <= Mant(PadTo(yc, |xc| + |yc|))
    ensures !xlty ==> Mant(PadTo(yc, |xc| + |yc|)) <= Mant(PadTo(xc, |xc| + |yc|))
  {
    xlty := |xc| < |yc|;
    var j := if xlty then |xc| else |yc|;
    var b := 0;
    while b < j
      invariant 0 <= b <= j
      invariant xlty == (|xc| < |yc|)
      invariant forall q :: 0 <= q < b ==> xc[q] == yc[q]
    {
      if xc[b] != yc[b] {
        xlty := xc[b] < yc[b];
        if xlty {
          FirstDifference(xc, yc, b, |xc| + |yc|);
        } else {
          FirstDifference(yc, xc, b, |xc| + |yc|);
        }
        return;
      }
      b := b + 1;
    }
    if xlty {
      PrefixAtMost(xc, yc, |xc| + |yc|);
    } else {
      PrefixAtMost(yc, xc, |xc| + |yc|);
    }
  }

  lemma ProductOfReals(a: int, b: int, ab: int, t: real, u: real, tu: real, x: real, y: real, xy: real)
    requires IsIntProduct(a, b, ab) && IsProduct(t, u, tu)
    requires IsProduct(a as real, t, x) && IsProduct(b as real, u, y) && IsProduct(ab as real, tu, xy)
    ensures IsProduct(x, y, xy)
  {
    IntRealMul(a, b);
    assert (a as real * b as real) * (t * u) == (a as real * t) * (b as real * u);
  }

  lemma ValIsProduct(s: int, e: int, c: seq<int>)
    ensures IsProduct((s * Mant(c)) as real, Scale(e - |c| + 1), Val(s, e, c))
  {
  }

  lemma SignsOfProduct(sx: int, sy: int, s: int, a: int, b: int, p: int)
    requires IsSign(sx) && IsSign(sy) && s == (if sx == sy then 1 else -1)
    requires IsIntProduct(a, b, p)
    ensures IsIntProduct(sx * a, sy * b, s * p)
  {
  }

  lemma ProductWithZero(a: real, b: real)
    requires a == 0.0 || b == 0.0
    ensures IsProduct(a, b, 0.0)
  {
  }

  lemma ProductCommutes(a: int, b: int, p: int)
    requires IsIntProduct(a, b, p)
    ensures IsIntProduct(b, a, p)
  {
  }

  lemma PowersMultiply(a: int, b: int, p: int, q: int, ab: int, pq: int)
    requires a >= p >= 0 && b >= q >= 0 && IsIntProduct(a, b, ab) && pq == p * q
    ensures ab >= pq
  {
    assert a * b >= p * b >= p * q;
  }

  /** The product array denotes the product. */
  lemma ProductValue(x: Num, y: Num, s: int, c: seq<int>)
    requires IsSign(x.s) && IsSign(y.s) && s == if x.s == y.s then 1 else -1
    requires |c| == |x.c| + |y.c| && IsIntProduct(Mant(x.c), Mant(y.c), Mant(c))
    ensures IsProduct(Value(x), Value(y), Val(s, x.e + y.e + 1, c))
  {
    var tx, ty, e := x.e - |x.c| + 1, y.e - |y.c| + 1, x.e + y.e + 1;
    ScaleProduct(tx, ty);
    SignsOfProduct(x.s, y.s, s, Mant(x.c), Mant(y.c), Mant(c));
    ValIsProduct(x.s, x.e, x.c);
    ValIsProduct(y.s, y.e, y.c);
    ValIsProduct(s, e, c);
    assert e - |c| + 1 == tx + ty;
    ProductOfReals(x.s * Mant(x.c), y.s * Mant(y.c), s * Mant(c), Scale(tx), Scale(ty), Scale(tx + ty),
                   Value(x), Value(y), Val(s, e, c));
  }

  lemma AtMostOneZero(x: seq<int>, y: seq<int>, c: seq<int>)
    requires IsDigits(x) && IsDigits(y) && IsDigits(c)
    requires |x| >= 1 && |y| >= 1 && x[0] != 0 && y[0] != 0
    requires |c| == |x| + |y| && IsIntProduct(Mant(x), Mant(y), Mant(c))
    ensures c[0] == 0 ==> c[1] != 0
  {
    MantPositive(x);
    MantPositive(y);
    Pow10Add(|x| - 1, |y| - 1);
    PowersMultiply(Mant(x), Mant(y), Pow10(|x| - 1), Pow10(|y| - 1), Mant(c), Pow10(|c| - 2));
    if c[0] == 0 {
      assert c == Zeros(1) + c[1..];
      LeadingZeros(1, c[1..]);
      LeadingNonzero(c[1..]);
    }
  }
}
