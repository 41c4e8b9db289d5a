/** The remainder method mod of big.js: truncated division, with the shared settings put back. */
module BigRemainder {
  import opened BigNumber
  import opened BigArithmetic
  import opened BigRounding
  import opened Wrappers
  import opened BigDivision

  /** The integer part of a real number, towards zero. */
  function Trunc(v: real): int {
    if v < 0.0 then -(-v).Floor else v.Floor
  }

  /** The integer part is the one whole number less than one away, on the side of zero. */
  lemma TruncExact(v: real, n: int)
    ensures v >= 0.0 ==> (n == Trunc(v) <==> n as real <= v < n as real + 1.0)
    ensures v < 0.0 ==> (n == Trunc(v) <==> n as real - 1.0 < v <= n as real)
  {
    var f := Trunc(v);
    if n < f {
      assert n as real <= f as real - 1.0;
    } else if n > f {
      assert n as real >= f as real + 1.0;
    }
  }

  /** Rounding to no decimal places in mode 0 is truncation. */
  lemma RoundDownIsTrunc(v: real)
    ensures Rounded(v, 0, 0) == Trunc(v) as real
  {
    assert Scale(0) == 1.0;
    ScaleByOne(v);
    ScaleByOne(-v);
    ScaleByOne(v.Floor as real);
    ScaleByOne((-v).Floor as real);
  }

  /** What is left after taking off the truncated multiple is smaller than y and never against the sign of x. */
  lemma TruncatedRemainder(x: real, y: real, q: real, r: real)
    requires y != 0.0 && IsProduct(q, y, x) && r == x - Trunc(q) as real * y
    ensures Abs(r) < Abs(y)
    ensures r == 0.0 || Sign(r) == Sign(x)
  {
    var f := q - Trunc(q) as real;
    assert -1.0 < f < 1.0;
    FractionTimes(q, Trunc(q) as real, f, y, r);
    SignOfProduct(f, y, r);
    SignOfProduct(q, y, x);
  }

  lemma FractionTimes(q: real, n: real, f: real, y: real, r: real)
    requires f == q - n && -1.0 < f < 1.0 && y != 0.0 && r == q * y - n * y
    ensures IsProduct(f, y, r) && Abs(r) < Abs(y)
  {
    assert f * y == q * y - n * y;
    assert r == f * y;
    SmallFactor(f, y, r);
  }

  lemma SmallFactor(f: real, y: real, r: real)
    requires IsProduct(f, y, r) && -1.0 < f < 1.0 && y != 0.0
    ensures Abs(r) < Abs(y)
  {
    if y > 0.0 {
      ProductOrder(f, 1.0, y);
      ProductOrder(-1.0, f, y);
    } else {
      ProductOrder(f, 1.0, -y);
      ProductOrder(-1.0, f, -y);
    }
  }

  lemma SignOfProduct(f: real, y: real, r: real)
    requires IsProduct(f, y, r) && y != 0.0
    ensures Sign(r) == Sign(f) * Sign(y)
  {
  }

  lemma SmallQuotient(x: real, y: real, q: real)
    requires IsProduct(q, y, x) && Abs(x) < Abs(y)
    ensures Trunc(q) == 0
  {
    if q >= 1.0 {
      ProductAtLeast(q, y, x);
    } else if q <= -1.0 {
      ProductAtLeast(-q, y, -x);
    }
  }

  lemma ProductAtLeast(q: real, y: real, p: real)
    requires q >= 1.0 && IsProduct(q, y, p)
    ensures Abs(p) >= Abs(y)
  {
  }

  /** Taking the sign off gives the magnitude. */
  lemma ValueWithoutSign(n: Num)
    requires Normal(n)
    ensures Normal(n.(s := 1)) && Value(n.(s := 1)) == Abs(Value(n))
  {
    ValueOfMagnitude(n);
    ValueOfMagnitude(n.(s := 1));
  }

  /** Whether |y| > |x|, found by comparing with both signs taken off and putting them back. */
  method IsGreaterMagnitude(y: Big, x: Big) returns (ygtx: bool)
    requires Normal(x.Num()) && Normal(y.Num()) && x != y
    modifies x, y
    ensures x.Num() == old(x.Num()) && y.Num() == old(y.Num())
    ensures ygtx <==> Abs(Value(y.Num())) > Abs(Value(x.Num()))
  {
    ghost var xn, yn := x.Num(), y.Num();
    ValueWithoutSign(xn);
    ValueWithoutSign(yn);
    var a, b := x.s, y.s;
    x.s, y.s := 1, 1;
    assert x.Num() == xn.(s := 1) && y.Num() == yn.(s := 1);
    var c := y.Cmp(x);
    ygtx := c == 1;
    x.s, y.s := a, b;
  }

  /** Divides with DP and RM set to zero, and puts them back. */
  method TruncatedQuotient(x: Big, y: Big) returns (d: Big)
    requires Normal(x.Num()) && Normal(y.Num()) && !IsZero(y.Num())
    modifies x.maker
    ensures x.maker.DP == old(x.maker.DP) && x.maker.RM == old(x.maker.RM)
    ensures fresh(d) && Normal(d.Num()) && Value(y.Num()) != 0.0
    ensures Value(d.Num()) == Trunc(Value(x.Num()) / Value(y.Num())) as real
  {
    var dp, rm := x.maker.DP, x.maker.RM;
    x.maker.DP, x.maker.RM := 0, 0;
    var r := Div(x, y);
    d := r.value;
    x.maker.DP, x.maker.RM := dp, rm;
    RoundDownIsTrunc(Value(x.Num()) / Value(y.Num()));
  }

  lemma QuotientProduct(x: real, y: real)
    requires y != 0.0
    ensures IsProduct(x / y, y, x)
  {
  }

  /** r differs from x by the n-fold of y. */
  ghost predicate LeavesMultiple(n: int, r: real, x: real, y: real) {
    IsProduct(n as real, y, x - r)
  }

  lemma RemainderOfProduct(x: real, y: real, t: real, r: real)
    requires y != 0.0 && IsProduct(Trunc(x / y) as real, y, t) && r == x - t
    ensures (exists n :: LeavesMultiple(n, r, x, y)) && LeavesMultiple(Trunc(x / y), r, x, y)
    ensures if y > 0.0 then -y < r < y else y < r < -y
    ensures (r > 0.0 ==> x > 0.0) && (r < 0.0 ==> x < 0.0)
  {
    QuotientProduct(x, y);
    TruncatedRemainder(x, y, x / y, r);
    assert LeavesMultiple(Trunc(x / y), r, x, y);
  }

  lemma SmallRemainder(x: real, y: real)
    requires Abs(x) < Abs(y)
    ensures y != 0.0 && LeavesMultiple(0, x, x, y) && Trunc(x / y) == 0
  {
    QuotientProduct(x, y);
    SmallQuotient(x, y, x / y);
  }

  /** There is only one number between -|y| and |y| of the sign of x that differs from x by a multiple of y. */
  lemma OneRemainder(x: real, y: real, r: real, m: int, r': real, m': int)
    requires y != 0.0 && LeavesMultiple(m, r, x, y) && LeavesMultiple(m', r', x, y)
    requires Abs(r) < Abs(y) && Abs(r') < Abs(y)
    requires (r > 0.0 ==> x > 0.0) && (r < 0.0 ==> x < 0.0) && (r' > 0.0 ==> x > 0.0) && (r' < 0.0 ==> x < 0.0)
    ensures r == r'
  {
    if m != m' {
      var k := (if m > m' then m - m' else m' - m) as real;
      assert k >= 1.0;
      SameProducts(m as real, m' as real, y, x - r, x - r');
      ProductAtLeast(k, y, if m > m' then r' - r else r - r');
    }
  }

  lemma SameProducts(a: real, b: real, y: real, p: real, q: real)
    requires IsProduct(a, y, p) && IsProduct(b, y, q)
    ensures IsProduct(a - b, y, p - q) && IsProduct(b - a, y, q - p)
  {
  }

  /** x - trunc(x / y) * y. For the length of the call the signs of x, DP and RM change; they are put back. */
  method Mod(x: Big, y0: Big) returns (r: Outcome<Big>)
    requires Normal(x.Num()) && Normal(y0.Num())
    modifies x, x.maker
    ensures x.Num() == old(x.Num()) && y0.Num() == old(y0.Num())
    ensures x.maker.DP == old(x.maker.DP) && x.maker.RM == old(x.maker.RM)
    ensures Value(y0.Num()) == 0.0 ==> r == Err(DivisionByZero)
    ensures Value(y0.Num()) != 0.0 ==> r.Ok? && fresh(r.value) && Normal(r.value.Num())
    ensures Value(y0.Num()) != 0.0 ==> exists n ::
      LeavesMultiple(n, Value(r.value.Num()), Value(x.Num()), Value(y0.Num()))
    ensures Value(y0.Num()) > 0.0 ==> -Value(y0.Num()) < Value(r.value.Num()) < Value(y0.Num())
    ensures Value(y0.Num()) < 0.0 ==> Value(y0.Num()) < Value(r.value.Num()) < -Value(y0.Num())
    ensures r.Ok? && Value(r.value.Num()) > 0.0 ==> Value(x.Num()) > 0.0
    ensures r.Ok? && Value(r.value.Num()) < 0.0 ==> Value(x.Num()) < 0.0
  {
    NormalZero(y0.Num());
    var y := new Big.Copy(x.maker, y0);
    if y.c[0] == 0 {
      return Err(DivisionByZero);
    }
    var ygtx := IsGreaterMagnitude(y, x);
    if ygtx {
      SmallRemainder(Value(x.Num()), Value(y.Num()));
      var copy := new Big.Copy(x.maker, x);
      return Ok(copy);
    }
    var d := TruncatedQuotient(x, y);
    var t := d.Times(y);
    var m := x.Minus(t);
    RemainderOfProduct(Value(x.Num()), Value(y.Num()), Value(t.Num()), Value(m.Num()));
    r := Ok(m);
  }
}
