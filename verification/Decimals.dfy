/** Decimal digits and exact decimal numbers.

    The device reads numbers with `strtod` into a `double` and prints them with
    `%lld`, `%ld` and `%.6g`.  Here a number is the exact decimal m * 10^e, kept in
    a canonical form, so that two numbers are equal exactly when the records are. */
module Decimals {

  datatype Option<+T> = None | Some(value: T)

  function Abs(x: int): (r: nat)
    ensures r == x || r == -x
  {
    if x < 0 then -x else x
  }

  /** Integer division of C: the quotient is truncated toward zero. */
  function TruncDiv(a: int, b: int): int
    requires b > 0
  {
    if a >= 0 then a / b else -((-a) / b)
  }

  lemma {:induction false} TimesGrows(a: int, b: int, unit: int)
    requires unit > 0 && a > b
    ensures a * unit >= b * unit + unit
    decreases a - b
  {
    assert a * unit == (a - 1) * unit + unit;
    if a - 1 > b {
      TimesGrows(a - 1, b, unit);
    }
  }

  lemma QuotientBelow(m: nat, n: nat, unit: nat)
    requires unit > 0 && m <= n * unit
    ensures 0 <= m / unit <= n
  {
    var q := m / unit;
    assert m == q * unit + m % unit;
    if q > n {
      TimesGrows(q, n, unit);
      assert false;
    }
  }

  lemma QuotientIs(n: nat, unit: nat)
    requires unit > 0
    ensures var q := n / unit; q >= 0 && q * unit <= n < q * unit + unit
  {
    var q := n / unit;
    assert n == q * unit + n % unit;
    if q < 0 {
      TimesGrows(0, q, unit);
      assert false;
    }
  }

  /** The quotient has the sign of a and is as large as it can be without exceeding a in size. */
  lemma TruncDivIs(a: int, b: int)
    requires b > 0
    ensures var q := TruncDiv(a, b);
            && Abs(q) * b <= Abs(a) < Abs(q) * b + b
            && (a >= 0 ==> q >= 0) && (a <= 0 ==> q <= 0)
  {
    QuotientIs(Abs(a), b);
  }

  function Pow10(n: nat): (r: nat)
    ensures r > 0
  {
    if n == 0 then 1 else 10 * Pow10(n - 1)
  }

  // ------------------------------------------------------------- digits

  predicate IsDigit(c: char) {
    '0' <= c <= '9'
  }

  ghost predicate AllDigits(s: string) {
    forall i :: 0 <= i < |s| ==> IsDigit(s[i])
  }

  function DigitValue(c: char): (v: int) {
    c as int - '0' as int
  }

  lemma DigitsAre(c: char)
    ensures IsDigit(c) <==> c in "0123456789"
    ensures forall d :: 0 <= d < 10 ==> DigitValue("0123456789"[d]) == d
  {
  }

  function HexValue(c: char): Option<int> {
    if '0' <= c <= '9' then Some(c as int - '0' as int)
    else if 'a' <= c <= 'f' then Some(c as int - 'a' as int + 10)
    else if 'A' <= c <= 'F' then Some(c as int - 'A' as int + 10)
    else None
  }

  /** Both cases of the sixteen hexadecimal digits have their value, and nothing else has one. */
  lemma HexDigitsAre(c: char, d: int)
    requires 0 <= d < 16
    ensures HexValue("0123456789abcdef"[d]) == HexValue("0123456789ABCDEF"[d]) == Some(d)
    ensures HexValue(c).Some? <==> c in "0123456789abcdefABCDEF"
  {
  }

  function DigitChar(d: int): (c: char)
    requires 0 <= d <= 9
    ensures IsDigit(c) && DigitValue(c) == d
  {
    (d + '0' as int) as char
  }

  /** The value of a string of digits, read left to right. */
  function DigitsValue(s: string): int {
    if s == "" then 0 else DigitsValue(s[..|s| - 1]) * 10 + DigitValue(s[|s| - 1])
  }

  lemma {:induction false} DigitsValueConcat(a: string, b: string)
    ensures DigitsValue(a + b) == DigitsValue(a) * Pow10(|b|) + DigitsValue(b)
  {
    if b == "" {
      assert a + b == a;
    } else {
      var b', c := b[..|b| - 1], b[|b| - 1];
      assert (a + b)[..|a + b| - 1] == a + b';
      DigitsValueConcat(a, b');
      calc {
        DigitsValue(a + b);
        DigitsValue(a + b') * 10 + DigitValue(c);
        (DigitsValue(a) * Pow10(|b'|) + DigitsValue(b')) * 10 + DigitValue(c);
        DigitsValue(a) * (10 * Pow10(|b'|)) + DigitsValue(b);
      }
    }
  }

  /** What `%llu` prints. */
  function NatText(n: nat): (s: string)
    ensures s != ""
  {
    if n < 10 then [DigitChar(n)] else NatText(n / 10) + [DigitChar(n % 10)]
  }

  lemma {:induction false} NatTextReads(n: nat)
    ensures AllDigits(NatText(n)) && DigitsValue(NatText(n)) == n
    ensures NatText(n)[0] == '0' <==> n == 0
    ensures n != 0 ==> n >= Pow10(|NatText(n)| - 1)
  {
    if n < 10 {
      assert NatText(n)[..0] == "";
    } else {
      NatTextReads(n / 10);
      assert NatText(n)[..|NatText(n)| - 1] == NatText(n / 10);
    }
  }

  lemma {:induction false} NatTextBelow(n: nat)
    ensures n < Pow10(|NatText(n)|)
  {
    if n >= 10 {
      NatTextBelow(n / 10);
      assert Pow10(|NatText(n)|) == 10 * Pow10(|NatText(n / 10)|);
    } else {
      assert Pow10(1) == 10;
    }
  }

  lemma {:induction false} NatTextShort(n: nat, k: nat)
    requires k > 0 && n < Pow10(k)
    ensures |NatText(n)| <= k
  {
    if n >= 10 {
      assert Pow10(k) == 10 * Pow10(k - 1);
      NatTextShort(n / 10, k - 1);
    }
  }

  function Zeros(n: nat): (s: string)
    ensures |s| == n
    ensures forall i :: 0 <= i < n ==> s[i] == '0'
  {
    seq(n, _ => '0')
  }

  lemma Assoc(a: string, b: string, c: string)
    ensures a + (b + c) == (a + b) + c
  {
  }

  lemma ZeroMore(n: nat)
    ensures "0" + Zeros(n) == Zeros(n + 1)
  {
  }

  lemma {:induction false} ZerosAreZero(n: nat)
    ensures DigitsValue(Zeros(n)) == 0
  {
    if n > 0 {
      assert Zeros(n)[..n - 1] == Zeros(n - 1);
      ZerosAreZero(n - 1);
    }
  }

  // ------------------------------------------------------------ decimals

  /** The number m * 10^e. */
  datatype Decimal = Decimal(m: int, e: int)

  const ZERO := Decimal(0, 0)

  /** The canonical record: no trailing zero in m, and (0, 0) for zero. */
  function Norm(m: int, e: int): Decimal
    decreases Abs(m)
  {
    if m == 0 then ZERO
    else if m % 10 == 0 then Norm(m / 10, e + 1)
    else Decimal(m, e)
  }

  ghost predicate Canonical(d: Decimal) {
    Norm(d.m, d.e) == d
  }

  lemma {:induction false} NormIsCanonical(m: int, e: int)
    ensures Canonical(Norm(m, e))
    ensures Norm(m, e).m == 0 <==> m == 0
    ensures m >= 0 ==> 0 <= Norm(m, e).m <= m
    ensures m <= 0 ==> m <= Norm(m, e).m <= 0
    decreases Abs(m)
  {
    if m != 0 && m % 10 == 0 {
      NormIsCanonical(m / 10, e + 1);
    }
  }

  /** The canonical record is the same number: its mantissa is m with zeros cut off. */
  lemma {:induction false} NormValue(m: int, e: int)
    ensures m == 0 ==> Norm(m, e) == ZERO
    ensures m != 0 ==> Norm(m, e).e >= e && Norm(m, e).m * Pow10(Norm(m, e).e - e) == m
    decreases Abs(m)
  {
    if m != 0 && m % 10 == 0 {
      NormValue(m / 10, e + 1);
      var d := Norm(m, e);
      TenTimes(d.m, Pow10(d.e - e - 1));
    }
  }

  lemma TenTimes(m: int, p: int)
    ensures m * (10 * p) == 10 * (m * p) && (10 * (m * p)) % 10 == 0 && (10 * (m * p)) / 10 == m * p
  {
  }

  /** Scaling the mantissa up and the exponent down does not change the number. */
  lemma {:induction false} NormScale(m: int, k: nat, e: int)
    ensures Norm(m * Pow10(k), e - k) == Norm(m, e)
  {
    if k > 0 {
      TenTimes(m, Pow10(k - 1));
      NormScale(m, k - 1, e);
      NormTen(m * Pow10(k - 1), e - k);
    }
  }

  lemma NormTen(n: int, e: int)
    ensures Norm(10 * n, e) == Norm(n, e + 1)
  {
  }

  function OfInt(n: int): (d: Decimal) {
    Norm(n, 0)
  }

  predicate Negative(d: Decimal) {
    d.m < 0
  }

  /** d > n, compared exactly. */
  predicate Above(d: Decimal, n: nat) {
    if d.e >= 0 then d.m * Pow10(d.e) > n else d.m > n * Pow10(-d.e)
  }

  /** The cast to an integer type: the fraction is cut off toward zero. */
  function Trunc(d: Decimal): int {
    if d.e >= 0 then d.m * Pow10(d.e) else TruncDiv(d.m, Pow10(-d.e))
  }

  lemma {:induction false} NormOfInt(n: int, e: nat)
    ensures Norm(n, e).e >= 0 && Norm(n, e).m * Pow10(Norm(n, e).e) == n * Pow10(e)
    decreases Abs(n)
  {
    if n == 0 {
    } else if n % 10 == 0 {
      NormOfInt(n / 10, e + 1);
      assert n == 10 * (n / 10);
      assert n * Pow10(e) == (n / 10) * Pow10(e + 1);
    }
  }

  /** Integers survive the trip through a decimal. */
  lemma IntReads(n: int)
    ensures Trunc(OfInt(n)) == n
    ensures Negative(OfInt(n)) <==> n < 0
    ensures forall k: nat :: Above(OfInt(n), k) <==> n > k
  {
    NormOfInt(n, 0);
    NormIsCanonical(n, 0);
  }

  lemma {:induction false} PowSum(a: nat, b: nat)
    ensures Pow10(a + b) == Pow10(a) * Pow10(b)
  {
    if a > 0 {
      PowSum(a - 1, b);
      TenTimes(Pow10(b), Pow10(a - 1));
    }
  }

  lemma Cancel(a: int, b: int, p: nat)
    requires p > 0
    ensures a * p > b * p <==> a > b
    ensures a * p == b * p <==> a == b
  {
    if a > b {
      TimesGrows(a, b, p);
    } else if b > a {
      TimesGrows(b, a, p);
    }
  }

  lemma Regroup(a: int, b: int, c: int)
    ensures a * (b * c) == (a * b) * c
  {
  }

  /** The number m / 10^k over a common denominator with the record d: d.m * 10^i == m * 10^j. */
  lemma CommonUnit(m: int, k: nat) returns (d: Decimal, up: nat)
    requires m != 0
    ensures d == Norm(m, 0 - k) && d.e == up - k && d.m * Pow10(up) == m
  {
    NormValue(m, 0 - k);
    d, up := Norm(m, 0 - k), Norm(m, 0 - k).e + k;
  }

  /** What the comparisons say of any number m / 10^k, however it is recorded. */
  lemma FractionCompared(m: int, k: nat, n: nat)
    ensures Negative(Norm(m, 0 - k)) <==> m < 0
    ensures Above(Norm(m, 0 - k), n) <==> m > n * Pow10(k)
  {
    if m != 0 {
      var d, up := CommonUnit(m, k);
      Cancel(0, d.m, Pow10(up));
      if up >= k {
        PowSum(up - k, k);
        Regroup(d.m, Pow10(up - k), Pow10(k));
        Cancel(d.m * Pow10(up - k), n, Pow10(k));
      } else {
        PowSum(k - up, up);
        Regroup(n, Pow10(k - up), Pow10(up));
        Cancel(d.m, n * Pow10(k - up), Pow10(up));
      }
    }
  }

  /** q is the part of m / unit before the point, cut off toward zero. */
  ghost predicate CutOff(m: int, unit: int, q: int) {
    if m >= 0 then 0 <= q && q * unit <= m < q * unit + unit else q <= 0 && q * unit - unit < m <= q * unit
  }

  lemma FractionCut(m: int, k: nat)
    ensures CutOff(m, Pow10(k), Trunc(Norm(m, 0 - k)))
  {
    if m != 0 {
      var d, up := CommonUnit(m, k);
      Cancel(0, d.m, Pow10(up));
      if up >= k {
        PowSum(up - k, k);
        Regroup(d.m, Pow10(up - k), Pow10(k));
        Cancel(0, d.m * Pow10(up - k), Pow10(k));
      } else {
        CutScaled(d.m, k - up, up);
      }
    }
  }

  lemma CutScaled(m: int, a: nat, b: nat)
    ensures CutOff(m * Pow10(b), Pow10(a + b), TruncDiv(m, Pow10(a)))
  {
    var q := TruncDiv(m, Pow10(a));
    TruncDivIs(m, Pow10(a));
    PowSum(a, b);
    Scaled(m, q, Pow10(a), Pow10(b));
  }

  lemma Scaled(m: int, q: int, p: nat, r: nat)
    requires r > 0 && CutOff(m, p, q)
    ensures CutOff(m * r, p * r, q)
  {
    Regroup(q, p, r);
    Cancel(m, 0, r);
    Cancel(q * p, m, r);
    var next := if m >= 0 then q * p + p else q * p - p;
    Cancel(next, m, r);
    assert next * r == if m >= 0 then (q * p) * r + p * r else (q * p) * r - p * r;
  }

  // -------------------------------------------- number tokens of RFC 8259, section 6

  datatype Sign = NoSign | Plus | Minus

  datatype Exponent = Exponent(mark: char, sign: Sign, digits: string)

  datatype NumTok = NumTok(neg: bool, whole: string, frac: string, exp: Option<Exponent>)

  ghost predicate ValidExponent(x: Exponent) {
    && (x.mark == 'e' || x.mark == 'E')
    && x.digits != "" && AllDigits(x.digits)
  }

  /** `frac` is empty when the token has no fraction part. */
  ghost predicate ValidNum(t: NumTok) {
    && t.whole != "" && AllDigits(t.whole)
    && (t.whole[0] == '0' ==> |t.whole| == 1)
    && AllDigits(t.frac)
    && (t.exp.Some? ==> ValidExponent(t.exp.value))
  }

  function ExponentValue(x: Exponent): int {
    if x.sign.Minus? then -DigitsValue(x.digits) else DigitsValue(x.digits)
  }

  /** The number written as sign, whole digits, fraction digits and exponent. */
  function NumberOf(neg: bool, whole: string, frac: string, x: int): Decimal {
    var m := DigitsValue(whole + frac);
    Norm(if neg then -m else m, x - |frac|)
  }

  function TokExponent(t: NumTok): int {
    if t.exp.Some? then ExponentValue(t.exp.value) else 0
  }

  function NumValue(t: NumTok): Decimal {
    NumberOf(t.neg, t.whole, t.frac, TokExponent(t))
  }

  /** A token is the integer of its digits with its sign, times ten to its exponent less the length of the fraction. */
  lemma TokValue(t: NumTok)
    ensures var m := if t.neg then -DigitsValue(t.whole + t.frac) else DigitsValue(t.whole + t.frac);
            var e := (if t.exp.None? then 0 else if t.exp.value.sign.Minus? then -DigitsValue(t.exp.value.digits)
                      else DigitsValue(t.exp.value.digits)) - |t.frac|;
            && (m == 0 ==> NumValue(t) == ZERO)
            && (m != 0 ==> NumValue(t).e >= e && NumValue(t).m * Pow10(NumValue(t).e - e) == m)
  {
    var m := if t.neg then -DigitsValue(t.whole + t.frac) else DigitsValue(t.whole + t.frac);
    NormValue(m, TokExponent(t) - |t.frac|);
  }

  /** The token followed by the text `r`. */
  function PutNum(t: NumTok, r: string): string {
    PutSign(if t.neg then Minus else NoSign, t.whole + PutFrac(t.frac, PutExponent(t.exp, r)))
  }

  function PutSign(x: Sign, r: string): string {
    match x
    case NoSign => r
    case Plus => ['+'] + r
    case Minus => ['-'] + r
  }

  function PutFrac(frac: string, r: string): string {
    if frac == "" then r else ['.'] + (frac + r)
  }

  function PutExponent(x: Option<Exponent>, r: string): string {
    match x
    case None => r
    case Some(x) => [x.mark] + PutSign(x.sign, x.digits + r)
  }

  // ---------------------------------------------------- printed numbers

  /** What `%lld` and `%ld` print, as a token. */
  function IntTok(n: int): (t: NumTok) {
    NumTok(n < 0, NatText(Abs(n)), "", None)
  }

  lemma IntTokReads(n: int)
    ensures ValidNum(IntTok(n)) && NumValue(IntTok(n)) == OfInt(n)
  {
    NatTextReads(Abs(n));
    var t := IntTok(n);
    assert t.whole + t.frac == t.whole;
  }

  /** Numbers below have at most six digits. */
  const SIX := 1000000

  /** m / unit, rounded to the nearest integer, ties to even. */
  function RoundHalfEven(m: nat, unit: nat): (q: nat)
    requires unit > 0
  {
    var q, rest := m / unit, m % unit;
    if 2 * rest > unit || (2 * rest == unit && q % 2 == 1) then q + 1 else q
  }

  /** The nearest multiple, and of two equally near ones the even one. */
  lemma RoundHalfEvenIs(m: nat, unit: nat)
    requires unit > 0
    ensures var q := RoundHalfEven(m, unit);
            2 * Abs(q * unit - m) <= unit && (2 * Abs(q * unit - m) == unit ==> q % 2 == 0)
  {
    var q := m / unit;
    assert m == q * unit + m % unit && (q + 1) * unit == q * unit + unit;
  }

  /** The six significant digits that `%.6g` keeps. */
  function SixDigits(d: Decimal): (r: Decimal)
    requires d.m >= 0
  {
    var k := |NatText(d.m)| - 6;
    if d.m < SIX || k <= 0 then Norm(d.m, d.e)
    else Norm(RoundHalfEven(d.m, Pow10(k)), d.e + k)
  }

  lemma SixDigitQuotient(m: nat, k: nat)
    requires |NatText(m)| == k + 6
    ensures Pow10(5) <= RoundHalfEven(m, Pow10(k)) <= Pow10(6)
  {
    NatTextReads(m);
    NatTextBelow(m);
    PowSum(5, k);
    PowSum(6, k);
    QuotientIs(m, Pow10(k));
    var q := m / Pow10(k);
    if q < Pow10(5) {
      TimesGrows(Pow10(5), q, Pow10(k));
    }
    if q >= Pow10(6) {
      Cancel(q + 1, Pow10(6), Pow10(k));
      Cancel(q, Pow10(6), Pow10(k));
    }
  }

  /** `%.6g` keeps a number of at most six digits. Of a longer one with k digits more it prints a six-digit multiple of
      10^k that is nearest to it, and the even one of two equally near ones. */
  lemma SixDigitsIs(d: Decimal) returns (q: nat)
    requires d.m >= 0 && Canonical(d)
    ensures |NatText(d.m)| <= 6 ==> SixDigits(d) == d
    ensures |NatText(d.m)| > 6 ==>
              var k := |NatText(d.m)| - 6;
              && 100000 <= q <= 1000000
              && SixDigits(d).e >= d.e + k && SixDigits(d).m * Pow10(SixDigits(d).e - (d.e + k)) == q
              && 2 * Abs(q * Pow10(k) - d.m) <= Pow10(k)
              && (2 * Abs(q * Pow10(k) - d.m) == Pow10(k) ==> q % 2 == 0)
  {
    q := 0;
    if |NatText(d.m)| > 6 {
      var k := |NatText(d.m)| - 6;
      q := RoundHalfEven(d.m, Pow10(k));
      RoundHalfEvenIs(d.m, Pow10(k));
      SixDigitQuotient(d.m, k);
      assert Pow10(2) == 100 && Pow10(5) == 1000 * Pow10(2);
      SmallIsShort(d.m);
      NormValue(q, d.e + k);
    }
  }

  lemma SmallIsShort(m: nat)
    ensures m < SIX ==> |NatText(m)| <= 6
  {
    assert Pow10(3) == 1000 && Pow10(6) == 1000 * Pow10(3);
    if m < SIX {
      NatTextShort(m, 6);
    }
  }

  /** `%.6g` of a number with at most six significant digits: fixed notation when the
      decimal exponent is in -4..5, scientific notation with a two-digit exponent otherwise. */
  function GeneralTok(d: Decimal): (t: NumTok)
    requires d.m >= 0
  {
    var digits := NatText(d.m);
    var x := |digits| - 1 + d.e;
    if d.m == 0 then NumTok(false, "0", "", None)
    else if -4 <= x < 6 then
      if d.e >= 0 then NumTok(false, digits + Zeros(d.e), "", None)
      else if x < 0 then NumTok(false, "0", Zeros(-x - 1) + digits, None)
      else NumTok(false, digits[..x + 1], digits[x + 1..], None)
    else
      NumTok(false, digits[..1], digits[1..], Some(ExponentOf(x)))
  }

  /** `%.6g` as a token, for any number that is not negative. */
  function PctTok(d: Decimal): NumTok
    requires d.m >= 0
  {
    NormalSixDigits(d);
    GeneralTok(SixDigits(d))
  }

  lemma NormalSixDigits(d: Decimal)
    requires d.m >= 0
    ensures SixDigits(d).m >= 0 && Canonical(SixDigits(d))
  {
    var k := |NatText(d.m)| - 6;
    if d.m < SIX || k <= 0 {
      NormIsCanonical(d.m, d.e);
    } else {
      NormIsCanonical(RoundHalfEven(d.m, Pow10(k)), d.e + k);
    }
  }

  lemma PaddedValue(d: Decimal, digits: string)
    requires d.m > 0 && d.e >= 0 && Canonical(d) && digits == NatText(d.m)
    ensures Norm(DigitsValue(digits + Zeros(d.e)), 0) == d
  {
    NatTextReads(d.m);
    DigitsValueConcat(digits, Zeros(d.e));
    ZerosAreZero(d.e);
    NormScale(d.m, d.e, d.e);
  }

  lemma FixedWholeReads(d: Decimal)
    requires d.m > 0 && d.e >= 0 && Canonical(d)
    ensures ValidNum(NumTok(false, NatText(d.m) + Zeros(d.e), "", None))
    ensures NumValue(NumTok(false, NatText(d.m) + Zeros(d.e), "", None)) == d
  {
    NatTextReads(d.m);
    var whole := NatText(d.m) + Zeros(d.e);
    assert whole[0] == NatText(d.m)[0];
    assert whole + "" == whole;
    PaddedValue(d, NatText(d.m));
  }

  lemma FixedFractionReads(d: Decimal, z: nat)
    requires d.m > 0 && Canonical(d) && z + |NatText(d.m)| == -d.e
    ensures ValidNum(NumTok(false, "0", Zeros(z) + NatText(d.m), None))
    ensures NumValue(NumTok(false, "0", Zeros(z) + NatText(d.m), None)) == d
  {
    NatTextReads(d.m);
    ZeroMore(z);
    Assoc("0", Zeros(z), NatText(d.m));
    DigitsValueConcat(Zeros(z + 1), NatText(d.m));
    ZerosAreZero(z + 1);
    SplitNumber(d, "0", Zeros(z) + NatText(d.m), Zeros(z + 1) + NatText(d.m), 0);
  }

  lemma SplitDigitsRead(d: Decimal, n: nat, x: Option<Exponent>)
    requires d.m > 0 && Canonical(d) && 0 < n <= |NatText(d.m)|
    requires x.Some? ==> ValidExponent(x.value)
    requires d.e == (if x.Some? then ExponentValue(x.value) else 0) - (|NatText(d.m)| - n)
    ensures var t := NumTok(false, NatText(d.m)[..n], NatText(d.m)[n..], x);
            ValidNum(t) && NumValue(t) == d
  {
    NatTextReads(d.m);
    SplitNumber(d, NatText(d.m)[..n], NatText(d.m)[n..], NatText(d.m), if x.Some? then ExponentValue(x.value) else 0);
  }

  lemma SplitNumber(d: Decimal, a: string, b: string, digits: string, x: int)
    requires a + b == digits && DigitsValue(digits) == d.m && Canonical(d) && d.e == x - |b|
    ensures NumberOf(false, a, b, x) == d
  {
  }

  function ExponentOf(x: int): Exponent {
    Exponent('e', if x < 0 then Minus else Plus,
             if Abs(x) < 10 then "0" + NatText(Abs(x)) else NatText(Abs(x)))
  }

  lemma ExponentReads(x: int)
    ensures ValidExponent(ExponentOf(x)) && ExponentValue(ExponentOf(x)) == x
  {
    NatTextReads(Abs(x));
    if Abs(x) < 10 {
      DigitsValueConcat("0", NatText(Abs(x)));
      ZerosAreZero(1);
      assert Zeros(1) == "0";
    }
  }

  /** `%.6g` prints a JSON number that reads back as the printed decimal. */
  lemma GeneralTokReads(d: Decimal)
    requires d.m >= 0 && Canonical(d)
    ensures ValidNum(GeneralTok(d)) && NumValue(GeneralTok(d)) == d
  {
    var n := |NatText(d.m)|;
    var x := n - 1 + d.e;
    if d.m == 0 {
      assert DigitsValue("0"[..0]) == 0;
    } else if -4 <= x < 6 {
      if d.e >= 0 {
        FixedWholeReads(d);
      } else if x < 0 {
        FixedFractionReads(d, -x - 1);
      } else {
        SplitDigitsRead(d, x + 1, None);
      }
    } else {
      ExponentReads(x);
      SplitDigitsRead(d, 1, Some(ExponentOf(x)));
    }
  }

  /** A number with at most six significant digits is printed without loss. */
  lemma PctTokReads(d: Decimal)
    requires d.m >= 0 && Canonical(d)
    ensures ValidNum(PctTok(d)) && NumValue(PctTok(d)) == SixDigits(d)
    ensures d.m < SIX ==> NumValue(PctTok(d)) == d
  {
    NormalSixDigits(d);
    GeneralTokReads(SixDigits(d));
  }
}
