/**
 Text and numbers: what a decimal literal denotes, the constructor's parse and
 the stringify behind toString, and the round trip between them.
 */
module BigText {
  import opened BigNumber
  import opened DigitLoops
  import opened BigArithmetic
  import opened BigRounding
  import opened Wrappers

  // ---------------------------------------------------------------- decimal literals

  datatype ExponentSign = Bare | Plus | Minus

  datatype Exponent = NoExponent | Exponent(mark: char, sign: ExponentSign, digits: seq<int>)

  /** The parts of a decimal literal: [-]whole[.frac][e[+-]digits]. */
  datatype Literal = Literal(neg: bool, whole: seq<int>, dot: bool, frac: seq<int>, exp: Exponent)

  ghost predicate WellFormed(l: Literal) {
    && IsDigits(l.whole) && IsDigits(l.frac)
    && (!l.dot ==> l.frac == [])
    && (l.whole != [] || l.frac != [])
    && (l.exp.Exponent? ==> (l.exp.mark == 'e' || l.exp.mark == 'E') && IsDigits(l.exp.digits) && l.exp.digits != [])
  }

  predicate IsDigitChar(ch: char) {
    '0' <= ch <= '9'
  }

  function DigitChar(d: int): (ch: char)
    requires 0 <= d <= 9
    ensures IsDigitChar(ch)
  {
    ('0' as int + d) as char
  }

  lemma DigitCharExactly(d: int)
    requires 0 <= d <= 9
    ensures DigitChar(d) == "0123456789"[d]
  {
  }

  function CharDigit(ch: char): (d: int)
    requires IsDigitChar(ch)
    ensures 0 <= d <= 9 && DigitChar(d) == ch
  {
    ch as int - '0' as int
  }

  function Text(c: seq<int>): (t: string)
    requires IsDigits(c)
    ensures |t| == |c| && forall i :: 0 <= i < |c| ==> t[i] == DigitChar(c[i])
  {
    seq(|c|, i requires 0 <= i < |c| => DigitChar(c[i]))
  }

  function DigitsOf(t: string): (c: seq<int>)
    requires forall i :: 0 <= i < |t| ==> IsDigitChar(t[i])
    ensures |c| == |t| && IsDigits(c) && Text(c) == t
  {
    seq(|t|, i requires 0 <= i < |t| => CharDigit(t[i]))
  }

  lemma DigitsOfText(c: seq<int>)
    requires IsDigits(c)
    ensures DigitsOf(Text(c)) == c
  {
    assert forall i :: 0 <= i < |c| ==> CharDigit(DigitChar(c[i])) == c[i];
  }

  function SignText(s: ExponentSign): string {
    match s
    case Bare => ""
    case Plus => "+"
    case Minus => "-"
  }

  function ExponentText(x: Exponent): string
    requires x.Exponent? ==> IsDigits(x.digits)
  {
    match x
    case NoExponent => ""
    case Exponent(mark, sign, digits) => [mark] + (SignText(sign) + Text(digits))
  }

  function Mantissa(l: Literal): string
    requires IsDigits(l.whole) && IsDigits(l.frac)
  {
    Text(l.whole) + if l.dot then "." + Text(l.frac) else ""
  }

  ghost function Unsigned(l: Literal): string
    requires WellFormed(l)
  {
    Mantissa(l) + ExponentText(l.exp)
  }

  ghost function Render(l: Literal): string
    requires WellFormed(l)
  {
    (if l.neg then "-" else "") + Unsigned(l)
  }

  function ExponentValue(x: Exponent): int {
    match x
    case NoExponent => 0
    case Exponent(_, sign, digits) => if sign == Minus then -Mant(digits) else Mant(digits)
  }

  /** whole.frac * 10^exp, with the sign. */
  function LiteralValue(l: Literal): real {
    InUnits(if l.neg then -1 else 1, Mant(l.whole + l.frac), ExponentValue(l.exp) - |l.frac|)
  }

  ghost predicate IsLiteral(n: string) {
    exists l :: WellFormed(l) && Render(l) == n
  }

  predicate AllDigits(t: string) {
    forall i :: 0 <= i < |t| ==> '0' <= t[i] <= '9'
  }

  /** The string is an exponent: a mark, a sign or none, and digits. */
  ghost predicate SpelledExponent(x: string, sign: string, digits: string) {
    && (x == ['e'] + (sign + digits) || x == ['E'] + (sign + digits))
    && (sign == "" || sign == "+" || sign == "-") && digits != "" && AllDigits(digits)
  }

  /** The string is a sign or none, digits with a point somewhere or none, and an exponent or none. */
  ghost predicate Spelled(n: string, neg: bool, whole: string, dot: bool, frac: string, x: string) {
    && n == (if neg then "-" else "") + ((whole + if dot then "." + frac else "") + x)
    && AllDigits(whole) && AllDigits(frac) && (whole != "" || (dot && frac != ""))
    && (x == "" || exists sign, digits :: SpelledExponent(x, sign, digits))
  }

  lemma ExponentSpelled(x: string) returns (l: Exponent)
    requires x == "" || exists sign, digits :: SpelledExponent(x, sign, digits)
    ensures l.Exponent? ==> (l.mark == 'e' || l.mark == 'E') && IsDigits(l.digits) && l.digits != []
    ensures ExponentText(l) == x
  {
    if x == "" {
      l := NoExponent;
    } else {
      var sign, digits :| SpelledExponent(x, sign, digits);
      l := Exponent(x[0], if sign == "" then Bare else if sign == "+" then Plus else Minus, DigitsOf(digits));
      assert SignText(l.sign) == sign;
    }
  }

  lemma LiteralSpelled(n: string, neg: bool, whole: string, dot: bool, frac: string, x: string) returns (l: Literal)
    requires Spelled(n, neg, whole, dot, frac, x)
    ensures WellFormed(l) && Render(l) == n
  {
    var exp := ExponentSpelled(x);
    l := Literal(neg, DigitsOf(whole), dot, if dot then DigitsOf(frac) else [], exp);
    assert Mantissa(l) == whole + if dot then "." + frac else "";
  }

  lemma SpellExponent(x: Exponent)
    requires x.Exponent? ==> (x.mark == 'e' || x.mark == 'E') && IsDigits(x.digits) && x.digits != []
    ensures ExponentText(x) == "" || exists sign, digits :: SpelledExponent(ExponentText(x), sign, digits)
  {
    if x.Exponent? {
      assert SpelledExponent(ExponentText(x), SignText(x.sign), Text(x.digits));
    }
  }

  /** The literals are the strings spelled like that. */
  lemma LiteralExactly(n: string)
    ensures IsLiteral(n) <==> exists neg, whole, dot, frac, x :: Spelled(n, neg, whole, dot, frac, x)
  {
    if neg, whole, dot, frac, x :| Spelled(n, neg, whole, dot, frac, x) {
      var l := LiteralSpelled(n, neg, whole, dot, frac, x);
    }
    if l :| WellFormed(l) && Render(l) == n {
      SpellExponent(l.exp);
      assert Spelled(n, l.neg, Text(l.whole), l.dot, Text(l.frac), ExponentText(l.exp));
    }
  }

  /**
   What a literal denotes: the whole digits as a number, each digit behind the point a
   tenth as much as one before it there, a factor of ten for each one of the exponent,
   downwards after a minus, and the sign.
   */
  lemma LiteralValueExactly(l: Literal, d: int, mark: char, sign: ExponentSign, digits: seq<int>)
    requires !l.neg && l.exp == NoExponent
    ensures l.frac == [] ==> LiteralValue(l) == Mant(l.whole) as real
    ensures LiteralValue(l.(frac := l.frac + [d])) == LiteralValue(l) + ScaledBy(d as real, -|l.frac| - 1)
    ensures LiteralValue(l.(exp := Exponent(mark, sign, digits))) ==
      ScaledBy(LiteralValue(l), if sign.Minus? then -Mant(digits) else Mant(digits))
    ensures LiteralValue(l.(neg := true)) == -LiteralValue(l)
    ensures LiteralValue(l.(neg := true, exp := Exponent(mark, sign, digits))) ==
      -LiteralValue(l.(exp := Exponent(mark, sign, digits)))
  {
    if l.frac == [] {
      WholeValue(l);
    }
    FractionValue(l, d);
    RescaledUnits(Mant(l.whole + l.frac), -|l.frac|, if sign.Minus? then -Mant(digits) else Mant(digits));
  }

  lemma WholeValue(l: Literal)
    requires !l.neg && l.exp == NoExponent && l.frac == []
    ensures LiteralValue(l) == Mant(l.whole) as real
  {
    assert l.whole + l.frac == l.whole && Scale(0) == 1.0;
  }

  lemma FractionValue(l: Literal, d: int)
    requires !l.neg && l.exp == NoExponent
    ensures LiteralValue(l.(frac := l.frac + [d])) == LiteralValue(l) + ScaledBy(d as real, -|l.frac| - 1)
  {
    var c := l.whole + l.frac;
    assert l.whole + (l.frac + [d]) == c + [d];
    MantPush(c, d);
    ScaleStep(-|l.frac| - 1);
    TenthsMore(Mant(c), d, Scale(-|l.frac| - 1));
  }

  lemma TenthsMore(m: int, d: int, t: real)
    ensures (10 * m + d) as real * t == m as real * (10.0 * t) + d as real * t
  {
  }

  lemma RescaledUnits(m: int, z: int, x: int)
    ensures ScaledBy(m as real, z + x) == ScaledBy(ScaledBy(m as real, z), x)
  {
    ScaleProduct(z, x);
    Rescaled(m as real, Scale(z), Scale(x), Scale(z + x));
  }

  lemma Rescaled(m: real, t: real, u: real, tu: real)
    requires IsProduct(t, u, tu)
    ensures m * tu == m * t * u
  {
  }

  // ---------------------------------------------------------------- the NUMERIC pattern

  /** The longest prefix of digits. */
  function TakeDigits(t: string): (p: string)
    ensures p <= t && forall i :: 0 <= i < |p| ==> IsDigitChar(p[i])
    ensures |p| < |t| ==> !IsDigitChar(t[|p|])
  {
    if t != "" && IsDigitChar(t[0]) then [t[0]] + TakeDigits(t[1..]) else ""
  }

  lemma TakeDigitsUpTo(t: string, n: nat)
    requires n <= |t| && forall i :: 0 <= i < n ==> IsDigitChar(t[i])
    requires n < |t| ==> !IsDigitChar(t[n])
    ensures TakeDigits(t) == t[..n]
  {
    if |TakeDigits(t)| > n {
      TakenIsDigit(t, n);
    }
  }

  lemma TakenIsDigit(t: string, i: nat)
    requires i < |TakeDigits(t)|
    ensures IsDigitChar(t[i])
  {
    assert TakeDigits(t)[i] == t[i];
  }

  lemma TakeDigitsOfText(c: seq<int>, rest: string)
    requires IsDigits(c) && (rest == "" || !IsDigitChar(rest[0]))
    ensures TakeDigits(Text(c) + rest) == Text(c)
    ensures (Text(c) + rest)[|c|..] == rest
  {
    TakeDigitsUpTo(Text(c) + rest, |c|);
  }

  predicate NumericExponent(t: string) {
    t == "" ||
    ((t[0] == 'e' || t[0] == 'E') &&
      var u := t[1..];
      var v := if u != "" && (u[0] == '+' || u[0] == '-') then u[1..] else u;
      v != "" && forall i :: 0 <= i < |v| ==> IsDigitChar(v[i]))
  }

  /** The text behind the leading digits. */
  function Behind(t: string): string {
    t[|TakeDigits(t)|..]
  }

  predicate NumericUnsigned(m: string) {
    var r := Behind(m);
    if r != "" && r[0] == '.' then
      (TakeDigits(m) != "" || TakeDigits(r[1..]) != "") && NumericExponent(Behind(r[1..]))
    else
      TakeDigits(m) != "" && NumericExponent(r)
  }

  /** The pattern a number string has to match. */
  predicate Numeric(n: string) {
    NumericUnsigned(if n != "" && n[0] == '-' then n[1..] else n)
  }

  lemma ExponentTextMatches(x: Exponent)
    requires x.Exponent? ==> (x.mark == 'e' || x.mark == 'E') && IsDigits(x.digits) && x.digits != []
    ensures NumericExponent(ExponentText(x))
    ensures ExponentText(x) == "" || (!IsDigitChar(ExponentText(x)[0]) && ExponentText(x)[0] != '.')
  {
    if x.Exponent? {
      var u := SignText(x.sign) + Text(x.digits);
      assert ExponentText(x)[1..] == u;
      if x.sign == Bare {
        assert u == Text(x.digits);
      } else {
        assert u[1..] == Text(x.digits);
      }
    }
  }

  lemma UnsignedWithPoint(l: Literal)
    requires WellFormed(l) && l.dot
    ensures Unsigned(l) == Text(l.whole) + (['.'] + (Text(l.frac) + ExponentText(l.exp)))
  {
  }

  lemma UnsignedWithoutPoint(l: Literal)
    requires WellFormed(l) && !l.dot
    ensures Unsigned(l) == Text(l.whole) + ExponentText(l.exp)
  {
  }

  /** The parts of the unsigned text, found by scanning it. */
  lemma MantissaParts(l: Literal)
    requires WellFormed(l)
    ensures TakeDigits(Unsigned(l)) == Text(l.whole)
    ensures l.dot <==> Behind(Unsigned(l)) != "" && Behind(Unsigned(l))[0] == '.'
    ensures l.dot ==> TakeDigits(Behind(Unsigned(l))[1..]) == Text(l.frac)
    ensures l.dot ==> Behind(Behind(Unsigned(l))[1..]) == ExponentText(l.exp)
    ensures !l.dot ==> Behind(Unsigned(l)) == ExponentText(l.exp)
  {
    var x := ExponentText(l.exp);
    ExponentTextMatches(l.exp);
    if l.dot {
      var f := Text(l.frac) + x;
      UnsignedWithPoint(l);
      TakeDigitsOfText(l.whole, ['.'] + f);
      TakeDigitsOfText(l.frac, x);
      assert (['.'] + f)[1..] == f;
    } else {
      UnsignedWithoutPoint(l);
      TakeDigitsOfText(l.whole, x);
    }
  }

  /** Every literal matches the pattern. */
  lemma LiteralIsNumeric(l: Literal)
    requires WellFormed(l)
    ensures Numeric(Render(l))
  {
    ExponentTextMatches(l.exp);
    SignOff(l);
    MantissaParts(l);
  }

  lemma SignOff(l: Literal)
    requires WellFormed(l)
    ensures Unsigned(l) != "" && Unsigned(l)[0] != '-'
    ensures Render(l)[0] == '-' <==> l.neg
    ensures (if l.neg then Render(l)[1..] else Render(l)) == Unsigned(l)
  {
    var m := Unsigned(l);
    if l.whole != [] {
      assert m[0] == Text(l.whole)[0];
    } else {
      assert m[0] == '.';
    }
    if l.neg {
      assert Render(l)[1..] == m;
    } else {
      assert Render(l) == m;
    }
  }

  lemma ExponentOfText(t: string) returns (x: Exponent)
    requires NumericExponent(t)
    ensures x.Exponent? ==> (x.mark == 'e' || x.mark == 'E') && IsDigits(x.digits) && x.digits != []
    ensures ExponentText(x) == t
  {
    if t == "" {
      x := NoExponent;
    } else {
      var u := t[1..];
      var signed := u != "" && (u[0] == '+' || u[0] == '-');
      var v := if signed then u[1..] else u;
      var sign := if !signed then Bare else if u[0] == '+' then Plus else Minus;
      x := Exponent(t[0], sign, DigitsOf(v));
      assert u == SignText(sign) + v;
      assert t == [t[0]] + u;
    }
  }

  /** Everything that matches the pattern is a literal. */
  lemma NumericIsLiteral(n: string) returns (l: Literal)
    requires Numeric(n)
    ensures WellFormed(l) && Render(l) == n
  {
    var neg := n != "" && n[0] == '-';
    var m := if neg then n[1..] else n;
    l := NumericIsUnsigned(m, neg);
    assert n == (if neg then "-" else "") + m;
  }

  lemma NumericIsUnsigned(m: string, neg: bool) returns (l: Literal)
    requires NumericUnsigned(m)
    ensures WellFormed(l) && Unsigned(l) == m && l.neg == neg
  {
    var w, r := TakeDigits(m), Behind(m);
    assert m == w + r;
    if r != "" && r[0] == '.' {
      var f := TakeDigits(r[1..]);
      var x := ExponentOfText(Behind(r[1..]));
      l := Literal(neg, DigitsOf(w), true, DigitsOf(f), x);
      assert r[1..] == f + Behind(r[1..]);
      assert r == ['.'] + r[1..];
      UnsignedWithPoint(l);
    } else {
      var x := ExponentOfText(r);
      l := Literal(neg, DigitsOf(w), false, [], x);
      UnsignedWithoutPoint(l);
    }
  }

  lemma NumericIffLiteral(n: string)
    ensures Numeric(n) <==> IsLiteral(n)
  {
    if Numeric(n) {
      var l := NumericIsLiteral(n);
    }
    if IsLiteral(n) {
      var l :| WellFormed(l) && Render(l) == n;
      LiteralIsNumeric(l);
    }
  }

  // ---------------------------------------------------------------- parse

  predicate NoPoint(t: string) {
    forall q :: 0 <= q < |t| ==> t[q] != '.'
  }

  /** The first point of n is at e, or there is none and e is -1. */
  predicate FirstPoint(n: string, e: int) {
    && -1 <= e < |n|
    && (e >= 0 ==> n[e] == '.' && NoPoint(n[..e]))
    && (e == -1 ==> NoPoint(n))
  }

  /** The position of the decimal point, or -1. */
  method IndexOfPoint(n: string) returns (e: int)
    ensures FirstPoint(n, e)
  {
    var i := 0;
    while i < |n|
      invariant 0 <= i <= |n|
      invariant forall q :: 0 <= q < i ==> n[q] != '.'
    {
      if n[i] == '.' {
        return i;
      }
      i := i + 1;
    }
    return -1;
  }

  /** The position of the exponent mark, or -1. */
  method SearchMark(n: string) returns (e: int)
    ensures -1 <= e < |n|
    ensures e >= 0 ==> (n[e] == 'e' || n[e] == 'E') && forall q :: 0 <= q < e ==> n[q] != 'e' && n[q] != 'E'
    ensures e == -1 ==> forall q :: 0 <= q < |n| ==> n[q] != 'e' && n[q] != 'E'
  {
    var i := 0;
    while i < |n|
      invariant 0 <= i <= |n|
      invariant forall q :: 0 <= q < i ==> n[q] != 'e' && n[q] != 'E'
    {
      if n[i] == 'e' || n[i] == 'E' {
        return i;
      }
      i := i + 1;
    }
    return -1;
  }

  /** What follows the exponent mark, converted to a number. */
  function ToInteger(t: string): int
    requires var v := if t != "" && (t[0] == '+' || t[0] == '-') then t[1..] else t;
      forall i :: 0 <= i < |v| ==> IsDigitChar(v[i])
  {
    if t != "" && t[0] == '+' then Mant(DigitsOf(t[1..]))
    else if t != "" && t[0] == '-' then -Mant(DigitsOf(t[1..]))
    else Mant(DigitsOf(t))
  }

  lemma ToIntegerOfExponent(x: Exponent)
    requires x.Exponent? && IsDigits(x.digits) && x.digits != []
    ensures var t := SignText(x.sign) + Text(x.digits);
      var v := if t != "" && (t[0] == '+' || t[0] == '-') then t[1..] else t;
      v == Text(x.digits) && ToInteger(t) == ExponentValue(x)
  {
    var t := SignText(x.sign) + Text(x.digits);
    DigitsOfText(x.digits);
    if x.sign == Bare {
      assert t == Text(x.digits);
    } else {
      assert t[1..] == Text(x.digits);
    }
  }

  lemma PointRemoved(l: Literal, m: string, e: int, n: string)
    requires WellFormed(l) && m == Unsigned(l) && (if l.dot then e == |l.whole| < |m| else e == -1)
    requires n == if e > -1 then m[..e] + m[e + 1..] else m
    ensures n == Text(l.whole + l.frac) + ExponentText(l.exp)
  {
    TextConcat(l.whole, l.frac);
    var x := ExponentText(l.exp);
    if l.dot {
      UnsignedWithPoint(l);
      CutOut(Text(l.whole), '.', Text(l.frac) + x);
      Regroup(Text(l.whole), Text(l.frac), x);
    } else {
      UnsignedWithoutPoint(l);
      assert l.whole + l.frac == l.whole;
    }
  }

  lemma TextConcat(a: seq<int>, b: seq<int>)
    requires IsDigits(a) && IsDigits(b)
    ensures Text(a + b) == Text(a) + Text(b)
  {
  }

  lemma Regroup(a: string, b: string, c: string)
    ensures (a + b) + c == a + (b + c)
  {
  }

  lemma CutOut(a: string, ch: char, b: string)
    ensures var m := a + ([ch] + b); m[..|a|] == a && m[|a| + 1..] == b
  {
  }

  /**
   Without point and exponent a literal is the digits whole + frac, with the point after
   whole and the exponent added.
   */
  method SplitLiteral(m: string, ghost l: Literal) returns (n: string, e: int)
    requires WellFormed(l) && m == Unsigned(l)
    ensures n == Text(l.whole + l.frac) && e == |l.whole| + ExponentValue(l.exp)
  {
    ghost var x := ExponentText(l.exp);
    ghost var d := l.whole + l.frac;
    n := m;
    e := IndexOfPoint(n);
    PointPosition(l, e);
    if e > -1 {
      n := n[..e] + n[e + 1..];
    }
    PointRemoved(l, m, e, n);
    var i := SearchMark(n);
    MarkPosition(d, l.exp, n, i);
    if i > 0 {
      if e < 0 {
        e := i;
      }
      assert n[i + 1..] == SignText(l.exp.sign) + Text(l.exp.digits);
      ToIntegerOfExponent(l.exp);
      e := e + ToInteger(n[i + 1..]);
      n := n[..i];
    } else if e < 0 {
      e := |n|;
    }
  }

  lemma PointPosition(l: Literal, e: int)
    requires WellFormed(l) && FirstPoint(Unsigned(l), e)
    ensures e == if l.dot then |l.whole| else -1
  {
    assert NoPoint(Text(l.whole));
    if l.dot {
      UnsignedWithPoint(l);
      PointFound(Text(l.whole), Text(l.frac) + ExponentText(l.exp), e);
    } else {
      UnsignedWithoutPoint(l);
      ExponentHasNoPoint(l.exp);
      PointMissing(Text(l.whole), ExponentText(l.exp), e);
    }
  }

  lemma PointFound(a: string, b: string, e: int)
    requires NoPoint(a) && FirstPoint(a + (['.'] + b), e)
    ensures e == |a|
  {
    var m := a + (['.'] + b);
    assert m[|a|] == '.';
    assert forall q :: 0 <= q < |a| ==> m[q] == a[q];
  }

  lemma PointMissing(a: string, b: string, e: int)
    requires NoPoint(a) && NoPoint(b) && FirstPoint(a + b, e)
    ensures e == -1
  {
    var m := a + b;
    assert forall q :: 0 <= q < |a| ==> m[q] == a[q];
    assert forall q :: |a| <= q < |m| ==> m[q] == b[q - |a|];
  }

  lemma ExponentHasNoPoint(x: Exponent)
    requires x.Exponent? ==> (x.mark == 'e' || x.mark == 'E') && IsDigits(x.digits)
    ensures NoPoint(ExponentText(x))
  {
    if x.Exponent? {
      var t := ExponentText(x);
      var k := 1 + |SignText(x.sign)|;
      assert forall q :: k <= q < |t| ==> t[q] == Text(x.digits)[q - k];
    }
  }

  lemma MarkPosition(d: seq<int>, x: Exponent, n: string, i: int)
    requires IsDigits(d) && d != [] && (x.Exponent? ==> (x.mark == 'e' || x.mark == 'E') && IsDigits(x.digits))
    requires n == Text(d) + ExponentText(x) && -1 <= i < |n|
    requires i >= 0 ==> (n[i] == 'e' || n[i] == 'E') && forall q :: 0 <= q < i ==> n[q] != 'e' && n[q] != 'E'
    requires i == -1 ==> forall q :: 0 <= q < |n| ==> n[q] != 'e' && n[q] != 'E'
    ensures i == if x.Exponent? then |d| else -1
    ensures x.Exponent? ==> n[..i] == Text(d) && n[i + 1..] == SignText(x.sign) + Text(x.digits)
  {
    assert forall q :: 0 <= q < |d| ==> n[q] == Text(d)[q];
    if x.Exponent? {
      assert n[|d|] == x.mark;
    }
  }

  /** Drops the zeros at both ends of the digit string and places the exponent. */
  method TrimmedDigits(n: string, e0: int, ghost d: seq<int>, ghost s: int) returns (c: seq<int>, e: int)
    requires IsSign(s) && IsDigits(d) && d != [] && n == Text(d)
    ensures Normal(Num(s, e, c)) && Val(s, e, c) == Val(s, e0 - 1, d)
  {
    var i := CountLeadingZeros(n, d);
    if i == |n| {
      ZeroDigits(d, s, e0 - 1);
      return [0], 0;
    }
    var nl := LastNonzero(n, d, i);
    e := e0 - i - 1;
    c := [];
    var k := i;
    while k <= nl
      invariant i <= k <= nl + 1 && c == d[i..k]
    {
      DigitOfText(d, k);
      c := c + [CharDigit(n[k])];
      k := k + 1;
    }
    TrimmedValue(d, c, i, nl + 1, s, e0 - 1);
  }

  lemma DigitOfText(d: seq<int>, i: nat)
    requires IsDigits(d) && i < |d|
    ensures CharDigit(Text(d)[i]) == d[i]
    ensures Text(d)[i] == '0' <==> d[i] == 0
  {
    DigitsOfText(d);
  }

  method CountLeadingZeros(n: string, ghost d: seq<int>) returns (i: nat)
    requires IsDigits(d) && n == Text(d)
    ensures i <= |d| && (forall q :: 0 <= q < i ==> d[q] == 0) && (i < |d| ==> d[i] != 0)
  {
    i := 0;
    while i < |n| && n[i] == '0'
      invariant 0 <= i <= |n|
      invariant forall q :: 0 <= q < i ==> d[q] == 0
    {
      DigitOfText(d, i);
      i := i + 1;
    }
    if i < |n| {
      DigitOfText(d, i);
    }
  }

  method LastNonzero(n: string, ghost d: seq<int>, ghost i: nat) returns (nl: nat)
    requires IsDigits(d) && n == Text(d) && i < |d| && d[i] != 0
    ensures i <= nl < |d| && d[nl] != 0 && forall q :: nl < q < |d| ==> d[q] == 0
  {
    nl := |n| - 1;
    DigitOfText(d, nl);
    while nl > 0 && n[nl] == '0'
      invariant i <= nl < |n|
      invariant forall q :: nl < q < |d| ==> d[q] == 0
      invariant n[nl] == '0' <==> d[nl] == 0
    {
      nl := nl - 1;
      DigitOfText(d, nl);
    }
  }

  lemma ZeroDigits(d: seq<int>, s: int, e: int)
    requires IsSign(s) && forall q :: 0 <= q < |d| ==> d[q] == 0
    ensures Val(s, e, d) == Val(s, 0, [0])
  {
    MantToZeros(d, |d|);
    ValOfUnits(s, e, d);
    ValOfDigit(s, 0, 0);
    ZeroUnits(s, e - |d| + 1, 0);
  }

  lemma TrimmedValue(d: seq<int>, c: seq<int>, i: nat, j: nat, s: int, e: int)
    requires i <= j <= |d| && c == d[i..j]
    requires forall q :: 0 <= q < i || j <= q < |d| ==> d[q] == 0
    ensures Val(s, e - i, c) == Val(s, e, d)
  {
    var tail := c + Zeros(|d| - j);
    assert d == Zeros(i) + tail;
    ValPrepend(s, e - i, tail, i);
    ValAppend(s, e - i, c, |d| - j);
  }

  lemma LiteralInUnits(l: Literal, s: int, e: int)
    requires WellFormed(l) && s == (if l.neg then -1 else 1) && e == |l.whole| + ExponentValue(l.exp)
    ensures Val(s, e - 1, l.whole + l.frac) == LiteralValue(l)
  {
    ValOfUnits(s, e - 1, l.whole + l.frac);
    assert e - 1 - |l.whole + l.frac| + 1 == ExponentValue(l.exp) - |l.frac|;
  }

  // ---------------------------------------------------------------- a string is at most one literal

  lemma ExponentTextInjective(x: Exponent, y: Exponent)
    requires x.Exponent? ==> IsDigits(x.digits) && x.digits != []
    requires y.Exponent? ==> IsDigits(y.digits) && y.digits != []
    requires ExponentText(x) == ExponentText(y)
    ensures x == y
  {
    if x.Exponent? && y.Exponent? {
      var t, u := ExponentText(x), ExponentText(y);
      assert t[1..] == SignText(x.sign) + Text(x.digits);
      assert u[1..] == SignText(y.sign) + Text(y.digits);
      ToIntegerOfExponent(x);
      ToIntegerOfExponent(y);
      DigitsOfText(x.digits);
      DigitsOfText(y.digits);
      assert x.sign == Bare ==> IsDigitChar(t[1..][0]);
      assert y.sign == Bare ==> IsDigitChar(u[1..][0]);
    }
  }

  /** The string a literal is written as determines its parts, and so its value. */
  lemma RenderInjective(l: Literal, l': Literal)
    requires WellFormed(l) && WellFormed(l') && Render(l) == Render(l')
    ensures l == l'
  {
    SignOff(l);
    SignOff(l');
    MantissaParts(l);
    MantissaParts(l');
    DigitsOfText(l.whole);
    DigitsOfText(l'.whole);
    DigitsOfText(l.frac);
    DigitsOfText(l'.frac);
    ExponentTextInjective(l.exp, l'.exp);
  }

  /** Parsing a string that matches the pattern. */
  method ParseLiteral(x: Big, n0: string, ghost l: Literal)
    requires WellFormed(l) && Render(l) == n0
    modifies x
    ensures Normal(x.Num()) && x.s == (if l.neg then -1 else 1) && Value(x.Num()) == LiteralValue(l)
  {
    SignOff(l);
    var n := n0;
    if n[0] == '-' {
      n := n[1..];
      x.s := -1;
    } else {
      x.s := 1;
    }
    x.c, x.e := ParseUnsigned(n, l, x.s);
  }

  method ParseUnsigned(m: string, ghost l: Literal, ghost s: int) returns (c: seq<int>, e: int)
    requires WellFormed(l) && m == Unsigned(l) && s == if l.neg then -1 else 1
    ensures Normal(Num(s, e, c)) && Val(s, e, c) == LiteralValue(l)
  {
    var n, e0 := SplitLiteral(m, l);
    LiteralInUnits(l, s, e0);
    c, e := TrimmedDigits(n, e0, l.whole + l.frac, s);
  }

  /** Sets x to the number the string stands for. */
  method Parse(x: Big, n: string) returns (r: Outcome<Big>)
    modifies x
    ensures !IsLiteral(n) ==> r == Err(InvalidNumber) && unchanged(x)
    ensures IsLiteral(n) ==> r == Ok(x) && Normal(x.Num())
    ensures forall l :: WellFormed(l) && Render(l) == n ==>
      x.s == (if l.neg then -1 else 1) && Value(x.Num()) == LiteralValue(l)
  {
    NumericIffLiteral(n);
    if !Numeric(n) {
      return Err(InvalidNumber);
    }
    ghost var l := NumericIsLiteral(n);
    ParseLiteral(x, n, l);
    forall l' | WellFormed(l') && Render(l') == n
      ensures l' == l
    {
      RenderInjective(l, l');
    }
    r := Ok(x);
  }

  // ---------------------------------------------------------------- stringify

  /** The decimal digits of a natural number. */
  function NatDigits(n: nat): (d: seq<int>)
    ensures d != [] && IsDigits(d)
    ensures if n == 0 then d == [0] else d[0] != 0
  {
    if n < 10 then [n] else NatDigits(n / 10) + [n % 10]
  }

  lemma {:induction false} MantOfNatDigits(n: nat)
    ensures Mant(NatDigits(n)) == n
  {
    if n < 10 {
      assert MantTo([n], 1) == n;
    } else {
      MantOfNatDigits(n / 10);
      MantPush(NatDigits(n / 10), n % 10);
    }
  }

  function IntText(e: int): string {
    if e < 0 then "-" + Text(NatDigits(-e)) else Text(NatDigits(e))
  }

  /** The literal that stringify writes, sign included. */
  function Notation(neg: bool, e: int, c: seq<int>, exponential: bool): Literal
    requires |c| >= 1
  {
    if exponential then
      Literal(neg, [c[0]], |c| > 1, c[1..],
              Exponent('e', if e < 0 then Minus else Plus, NatDigits(if e < 0 then -e else e)))
    else if e < 0 then Literal(neg, [0], true, Zeros(-e - 1) + c, NoExponent)
    else if e + 1 < |c| then Literal(neg, c[..e + 1], true, c[e + 1..], NoExponent)
    else Literal(neg, c + Zeros(e + 1 - |c|), false, [], NoExponent)
  }

  /** In either notation the literal denotes the number. */
  lemma NotationValue(neg: bool, e: int, c: seq<int>, exponential: bool)
    requires IsDigits(c) && |c| >= 1
    ensures WellFormed(Notation(neg, e, c, exponential))
    ensures LiteralValue(Notation(neg, e, c, exponential)) == Val(if neg then -1 else 1, e, c)
  {
    var s := if neg then -1 else 1;
    var l := Notation(neg, e, c, exponential);
    ValOfUnits(s, e, c);
    if exponential {
      assert l.whole + l.frac == c;
      MantOfNatDigits(if e < 0 then -e else e);
    } else if e < 0 {
      assert l.whole + l.frac == Zeros(-e) + c;
      LeadingZeros(-e, c);
    } else if e + 1 < |c| {
      assert l.whole + l.frac == c;
    } else {
      assert l.whole + l.frac == c + Zeros(e + 1 - |c|);
      WholeNotation(s, e + 1 - |c|, c);
    }
  }

  lemma WholeNotation(s: int, k: nat, c: seq<int>)
    ensures InUnits(s, Mant(c + Zeros(k)), 0) == InUnits(s, Mant(c), k)
  {
    MantAppend(c, k);
    RescaleUnits(s, Mant(c), k, Mant(c + Zeros(k)), 0);
  }

  lemma ZerosText(k: nat, c: seq<int>)
    requires IsDigits(c)
    ensures Text(Zeros(k + 1) + c) == "0" + Text(Zeros(k) + c)
    ensures Text(c + Zeros(k + 1)) == Text(c + Zeros(k)) + "0"
  {
    assert Zeros(k + 1) + c == [0] + (Zeros(k) + c);
    assert c + Zeros(k + 1) == (c + Zeros(k)) + [0];
  }

  lemma RenderExponential(neg: bool, e: int, c: seq<int>)
    requires IsDigits(c) && |c| >= 1 && WellFormed(Notation(neg, e, c, true))
    ensures Unsigned(Notation(neg, e, c, true)) ==
            [Text(c)[0]] + (if |c| > 1 then "." + Text(c)[1..] else "") + (if e < 0 then "e" else "e+") + IntText(e)
  {
    var l := Notation(neg, e, c, true);
    assert Mantissa(l) == [Text(c)[0]] + (if |c| > 1 then "." + Text(c)[1..] else "") by {
      assert Text([c[0]]) == [Text(c)[0]];
      assert Text(c[1..]) == Text(c)[1..];
    }
    RenderExponent(e);
  }

  lemma RenderExponent(e: int)
    ensures ExponentText(Exponent('e', if e < 0 then Minus else Plus, NatDigits(if e < 0 then -e else e))) ==
            (if e < 0 then "e" else "e+") + IntText(e)
  {
    var digits := Text(NatDigits(if e < 0 then -e else e));
    assert ['e'] + ("-" + digits) == "e" + ("-" + digits);
    assert ['e'] + ("+" + digits) == "e+" + digits;
  }

  lemma RenderSmall(neg: bool, e: int, c: seq<int>)
    requires IsDigits(c) && |c| >= 1 && e < 0 && WellFormed(Notation(neg, e, c, false))
    ensures Unsigned(Notation(neg, e, c, false)) == "0." + Text(Zeros(-e - 1) + c)
  {
    assert Text([0]) == "0";
  }

  lemma RenderSplit(neg: bool, e: int, c: seq<int>)
    requires IsDigits(c) && 0 <= e && e + 1 < |c| && WellFormed(Notation(neg, e, c, false))
    ensures Unsigned(Notation(neg, e, c, false)) == Text(c)[..e + 1] + "." + Text(c)[e + 1..]
  {
    assert Text(c[..e + 1]) == Text(c)[..e + 1];
    assert Text(c[e + 1..]) == Text(c)[e + 1..];
  }

  lemma RenderWhole(neg: bool, e: int, c: seq<int>)
    requires IsDigits(c) && |c| >= 1 && e >= 0 && e + 1 >= |c| && WellFormed(Notation(neg, e, c, false))
    ensures Unsigned(Notation(neg, e, c, false)) == Text(c + Zeros(e + 1 - |c|))
    ensures e + 1 == |c| ==> c + Zeros(e + 1 - |c|) == c
  {
  }

  /** The digits of a number are the only ones without a zero in front. */
  lemma {:induction false} NatDigitsExactly(n: nat, d: seq<int>)
    requires IsDigits(d) && d != [] && (d[0] == 0 ==> |d| == 1)
    ensures d == NatDigits(n) <==> Mant(d) == n
  {
    MantOfNatDigits(n);
    MantRange(d);
    if Mant(d) == n && d != NatDigits(n) {
      SameNatDigits(d, NatDigits(n));
    }
  }

  lemma {:induction false} SameNatDigits(a: seq<int>, b: seq<int>)
    requires IsDigits(a) && a != [] && (a[0] == 0 ==> |a| == 1)
    requires IsDigits(b) && b != [] && (b[0] == 0 ==> |b| == 1)
    requires Mant(a) == Mant(b)
    ensures a == b
    decreases |a|
  {
    var x, y := a[..|a| - 1], b[..|b| - 1];
    assert a == x + [a[|a| - 1]] && b == y + [b[|b| - 1]];
    MantPush(x, a[|a| - 1]);
    MantPush(y, b[|b| - 1]);
    MantRange(x);
    MantRange(y);
    if x != [] && y != [] {
      SameNatDigits(x, y);
    } else if x != [] {
      MantPositive(x);
    } else if y != [] {
      MantPositive(y);
    }
  }

  /** Exponential notation: the digits with a point after the first, and an exponent with its sign. */
  lemma ExponentialText(neg: bool, e: int, c: seq<int>)
    requires IsDigits(c) && |c| >= 1
    ensures WellFormed(Notation(neg, e, c, true))
    ensures var first := [Text(c)[0]] + if |c| > 1 then "." + Text(c)[1..] else "";
      Render(Notation(neg, e, c, true)) == (if neg then "-" else "") +
        if e < 0 then first + "e" + ("-" + Text(NatDigits(-e))) else first + "e+" + Text(NatDigits(e))
  {
    NotationValue(neg, e, c, true);
    RenderExponential(neg, e, c);
  }

  /** Normal notation: the digits with a point after the first e + 1, and zeros filled in where they do not reach. */
  lemma NormalText(neg: bool, e: int, c: seq<int>)
    requires IsDigits(c) && |c| >= 1
    ensures WellFormed(Notation(neg, e, c, false))
    ensures e < 0 ==>
      Render(Notation(neg, e, c, false)) == (if neg then "-" else "") + ("0." + Text(Zeros(-e - 1) + c))
    ensures 0 <= e && e + 1 < |c| ==>
      Render(Notation(neg, e, c, false)) == (if neg then "-" else "") + (Text(c)[..e + 1] + "." + Text(c)[e + 1..])
    ensures 0 <= e && e + 1 >= |c| ==>
      Render(Notation(neg, e, c, false)) == (if neg then "-" else "") + Text(c + Zeros(e + 1 - |c|))
  {
    NotationValue(neg, e, c, false);
    if e < 0 {
      RenderSmall(neg, e, c);
    } else if e + 1 < |c| {
      RenderSplit(neg, e, c);
    } else {
      RenderWhole(neg, e, c);
    }
  }

  /** The normal notation, without sign. */
  method StringifyPlain(e0: int, c: seq<int>, ghost neg: bool) returns (t: string)
    requires IsDigits(c) && |c| >= 1 && WellFormed(Notation(neg, e0, c, false))
    ensures t == Unsigned(Notation(neg, e0, c, false))
  {
    var e := e0;
    t := Text(c);
    var n := |t|;
    if e < 0 {
      RenderSmall(neg, e, c);
      t := PutZerosBefore(t, -e - 1, c);
      t := "0." + t;
    } else if e > 0 {
      e := e + 1;
      if e > n {
        RenderWhole(neg, e0, c);
        t := PutZerosBehind(t, e - n, c);
      } else if e < n {
        RenderSplit(neg, e0, c);
        t := t[..e] + "." + t[e..];
      } else {
        RenderWhole(neg, e0, c);
      }
    } else if n > 1 {
      RenderSplit(neg, e, c);
      assert t[..1] == [t[0]];
      t := [t[0]] + "." + t[1..];
    } else {
      RenderWhole(neg, e, c);
    }
  }

  /** The text of a number in normal or exponential notation. */
  method Stringify(x: Num, doExponential: bool, isNonzero: bool) returns (t: string)
    requires IsDigits(x.c) && |x.c| >= 1
    ensures WellFormed(Notation(x.s < 0 && isNonzero, x.e, x.c, doExponential))
    ensures t == Render(Notation(x.s < 0 && isNonzero, x.e, x.c, doExponential))
  {
    ghost var neg := x.s < 0 && isNonzero;
    NotationValue(neg, x.e, x.c, doExponential);
    if doExponential {
      RenderExponential(neg, x.e, x.c);
      t := Text(x.c);
      t := [t[0]] + (if |t| > 1 then "." + t[1..] else "") + (if x.e < 0 then "e" else "e+") + IntText(x.e);
    } else {
      t := StringifyPlain(x.e, x.c, neg);
    }
    t := if x.s < 0 && isNonzero then "-" + t else t;
  }

  method PutZerosBefore(t0: string, k: nat, ghost c: seq<int>) returns (t: string)
    requires IsDigits(c) && t0 == Text(c)
    ensures t == Text(Zeros(k) + c)
  {
    t := t0;
    var i := 0;
    assert Zeros(0) + c == c;
    while i < k
      invariant 0 <= i <= k && t == Text(Zeros(i) + c)
    {
      ZerosText(i, c);
      t := "0" + t;
      i := i + 1;
    }
  }

  method PutZerosBehind(t0: string, k: nat, ghost c: seq<int>) returns (t: string)
    requires IsDigits(c) && t0 == Text(c)
    ensures t == Text(c + Zeros(k))
  {
    t := t0;
    var i := 0;
    assert c + Zeros(0) == c;
    while i < k
      invariant 0 <= i <= k && t == Text(c + Zeros(i))
    {
      ZerosText(i, c);
      t := t + "0";
      i := i + 1;
    }
  }

  // ---------------------------------------------------------------- the round trip

  lemma {:induction false} SameDigits(e: int, x: seq<int>, y: seq<int>, m: nat)
    requires IsDigits(x) && IsDigits(y) && m <= |x| && m <= |y|
    requires Val(1, e, x) == Val(1, e, y)
    ensures forall i :: 0 <= i < m ==> x[i] == y[i]
  {
    if m > 0 {
      SameDigits(e, x, y, m - 1);
      var n := |x| + |y|;
      if x[m - 1] < y[m - 1] {
        FirstDifference(x, y, m - 1, n);
        PadLess(e, x, y, n);
      } else if x[m - 1] > y[m - 1] {
        FirstDifference(y, x, m - 1, n);
        PadLess(e, y, x, n);
      }
    }
  }

  lemma SameMagnitude(ex: int, x: seq<int>, ey: int, y: seq<int>)
    requires IsDigits(x) && IsDigits(y) && |x| >= 1 && |y| >= 1
    requires x[0] != 0 && y[0] != 0 && x[|x| - 1] != 0 && y[|y| - 1] != 0
    requires Val(1, ex, x) == Val(1, ey, y)
    ensures ex == ey && x == y
  {
    if ex < ey {
      ExponentOrder(ex, x, ey, y);
    } else if ey < ex {
      ExponentOrder(ey, y, ex, x);
    } else {
      SameDigits(ex, x, y, if |x| < |y| then |x| else |y|);
      if |x| < |y| {
        PrefixAtMost(x, y, |y|);
        PadLess(ex, x, y, |y|);
      } else if |y| < |x| {
        PrefixAtMost(y, x, |x|);
        PadLess(ex, y, x, |x|);
      }
    }
  }

  /** The normal form of a number is unique. */
  lemma NormalFormUnique(x: Num, y: Num)
    requires Normal(x) && Normal(y) && x.s == y.s && Value(x) == Value(y)
    ensures x == y
  {
    NormalZero(x);
    NormalZero(y);
    if !IsZero(x) {
      ValNegate(1, x.e, x.c);
      ValNegate(1, y.e, y.c);
      SameMagnitude(x.e, x.c, y.e, y.c);
    }
  }

  /** Printing with the sign kept, in either notation, and parsing gives the number back. */
  method PrintAndParse(x: Big, doExponential: bool) returns (y: Big)
    requires Normal(x.Num())
    ensures y.Num() == x.Num()
  {
    var t := Stringify(x.Num(), doExponential, true);
    y := new Big(x.maker, Num(1, 0, [0]));
    ghost var l := Notation(x.s < 0, x.e, x.c, doExponential);
    NotationValue(x.s < 0, x.e, x.c, doExponential);
    var r := Parse(y, t);
    assert WellFormed(l) && Render(l) == t;
    NormalFormUnique(x.Num(), y.Num());
  }

  /** toString drops the sign of zero, and nothing else. */
  method ToStringAndParse(x: Big, ne: int, pe: int) returns (t: string, y: Big)
    requires Normal(x.Num())
    ensures t == Render(Notation(x.s < 0 && !IsZero(x.Num()), x.e, x.c, x.e <= ne || x.e >= pe))
    ensures y.Num() == if IsZero(x.Num()) then Num(1, 0, [0]) else x.Num()
  {
    t := Stringify(x.Num(), x.e <= ne || x.e >= pe, x.c[0] != 0);
    y := new Big(x.maker, Num(1, 0, [0]));
    ghost var neg := x.s < 0 && x.c[0] != 0;
    ghost var exponential := x.e <= ne || x.e >= pe;
    ghost var l := Notation(neg, x.e, x.c, exponential);
    NotationValue(neg, x.e, x.c, exponential);
    var r := Parse(y, t);
    assert WellFormed(l) && Render(l) == t;
    NormalZero(x.Num());
    ghost var w := if IsZero(x.Num()) then Num(1, 0, [0]) else x.Num();
    NormalFormUnique(w, y.Num());
  }
}
