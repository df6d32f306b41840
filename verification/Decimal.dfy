// Exact decimal numbers (internal/action/value.go): their value, their canonical form
// and their order. No rounding takes place anywhere.
module Decimal {
  const MAX_LEXEME_BYTES := 1024
  const MAX_DIGITS := 768
  const MAX_EXPONENT := 100000

  // An empty coefficient is the source's zero struct and counts as zero.
  datatype Decimal = Decimal(negative: bool, coefficient: string, exponent: int)

  const ZERO := Decimal(false, "0", 0)

  // ------------------------------------------------------------------- the value

  predicate Digit(c: char) {
    '0' <= c <= '9'
  }

  predicate Digits(s: string) {
    forall i :: 0 <= i < |s| ==> Digit(s[i])
  }

  function DigitValue(c: char): nat
    requires Digit(c)
  {
    c as int - '0' as int
  }

  // The number that a run of digits writes.
  function Number(s: string): real
    requires Digits(s)
  {
    if s == "" then 0.0 else Number(s[..|s| - 1]) * 10.0 + DigitValue(s[|s| - 1]) as real
  }

  function Pow10(e: int): (p: real)
    ensures 0.0 < p
    decreases if 0 <= e then e else -e
  {
    if e == 0 then 1.0 else if 0 < e then Pow10(e - 1) * 10.0 else Pow10(e + 1) / 10.0
  }

  // A number moved by e decimal places.
  function Scale(x: real, e: int): real {
    x * Pow10(e)
  }

  predicate IsZero(d: Decimal) {
    d.coefficient == "" || d.coefficient == "0"
  }

  function Value(d: Decimal): real
    requires Digits(d.coefficient)
  {
    var magnitude := Scale(Number(d.coefficient), d.exponent);
    if d.negative then -magnitude else magnitude
  }

  // No leading and no trailing zero, and one form of zero.
  predicate Normal(d: Decimal) {
    if d.coefficient == "0" then !d.negative && d.exponent == 0
    else
      && d.coefficient != "" && Digits(d.coefficient)
      && d.coefficient[0] != '0' && d.coefficient[|d.coefficient| - 1] != '0'
  }

  // The form that parsing yields (validRuntimeDecimal).
  predicate Canonical(d: Decimal) {
    && Normal(d)
    && |d.coefficient| <= MAX_DIGITS && -MAX_EXPONENT <= d.exponent <= MAX_EXPONENT
  }

  // ---------------------------------------------------------------------- powers

  lemma MulAssoc(a: real, b: real, c: real)
    ensures (a * b) * c == a * (b * c)
  {
  }

  lemma MulStrict(a: real, b: real, p: real)
    requires a < b && 0.0 < p
    ensures a * p < b * p
  {
  }

  lemma PowZero()
    ensures Pow10(0) == 1.0
  {
  }

  lemma PowNext(e: int)
    ensures Pow10(e + 1) == Pow10(e) * 10.0
  {
  }

  lemma {:induction false} PowAdd(a: int, b: int)
    ensures Pow10(a + b) == Pow10(a) * Pow10(b)
    decreases if 0 <= b then b else -b
  {
    hide Pow10;
    PowZero();
    if 0 < b {
      PowAdd(a, b - 1);
      PowNext(a + b - 1);
      PowNext(b - 1);
      MulAssoc(Pow10(a), Pow10(b - 1), 10.0);
    } else if b < 0 {
      PowAdd(a, b + 1);
      PowNext(a + b);
      PowNext(b);
      MulAssoc(Pow10(a), Pow10(b), 10.0);
    }
  }

  // Scaling, in the steps the digits need; its product is looked at nowhere else.
  lemma ScaleScale(x: real, k: int, e: int)
    ensures Scale(Scale(x, k), e) == Scale(x, k + e)
  {
    hide Pow10;
    PowAdd(k, e);
    Regroup(x, Pow10(k), Pow10(e), Pow10(k + e));
  }

  lemma Regroup(x: real, a: real, b: real, ab: real)
    requires ab == a * b
    ensures (x * a) * b == x * ab
  {
    MulAssoc(x, a, b);
  }

  lemma ScaleOne(e: int)
    ensures Scale(1.0, e) == Pow10(e)
  {
    hide Pow10;
  }

  lemma ScalePower(k: int, e: int)
    ensures Scale(Pow10(k), e) == Pow10(k + e)
  {
    hide Pow10;
    PowAdd(k, e);
  }

  lemma ScaleNext(x: real, e: int)
    ensures Scale(x, 0) == x
    ensures Scale(x, e + 1) == Scale(x, e) * 10.0 == Scale(x * 10.0, e)
  {
    PowZero();
    PowNext(e);
    hide Pow10;
    Regroup(x, Pow10(e), 10.0, Pow10(e + 1));
    Swap(x, Pow10(e));
  }

  lemma Swap(x: real, p: real)
    ensures (x * p) * 10.0 == (x * 10.0) * p
  {
  }

  lemma ScaleAdd(x: real, y: real, e: int)
    ensures Scale(x + y, e) == Scale(x, e) + Scale(y, e)
  {
    hide Pow10;
    Distribute(x, y, Pow10(e));
  }

  lemma Distribute(x: real, y: real, p: real)
    ensures (x + y) * p == x * p + y * p
  {
  }

  lemma ScaleMonotone(x: real, y: real, e: int)
    ensures x < y ==> Scale(x, e) < Scale(y, e)
    ensures x <= y ==> Scale(x, e) <= Scale(y, e)
    ensures Scale(0.0, e) == 0.0
  {
    hide Pow10;
    if x < y {
      MulStrict(x, y, Pow10(e));
    }
  }

  lemma {:induction false} PowMonotone(a: int, b: int)
    requires a <= b
    ensures Pow10(a) <= Pow10(b)
    decreases b - a
  {
    if a < b {
      PowMonotone(a, b - 1);
      PowNext(b - 1);
    }
  }

  // ---------------------------------------------------------------------- digits

  lemma NumberAppend(s: string, c: char)
    requires Digits(s) && Digit(c)
    ensures Digits(s + [c]) && Number(s + [c]) == Number(s) * 10.0 + DigitValue(c) as real
  {
    assert (s + [c])[..|s|] == s;
  }

  lemma {:induction false} NumberConcat(a: string, b: string)
    requires Digits(a) && Digits(b)
    ensures Digits(a + b) && Number(a + b) == Scale(Number(a), |b|) + Number(b)
    decreases |b|
  {
    hide Scale, Number;
    ScaleNext(Number(a), |b| - 1);
    NumberEmpty();
    if b == "" {
      assert a + b == a;
    } else {
      var init, c := b[..|b| - 1], b[|b| - 1];
      assert b == init + [c] && a + b == (a + init) + [c];
      NumberConcat(a, init);
      NumberAppend(a + init, c);
      NumberAppend(init, c);
    }
  }

  lemma NumberEmpty()
    ensures Number("") == 0.0
  {
  }

  lemma {:induction false} NumberBound(s: string)
    requires Digits(s)
    ensures 0.0 <= Number(s) <= Pow10(|s|) - 1.0
    decreases |s|
  {
    if s != "" {
      NumberBound(s[..|s| - 1]);
      PowNext(|s| - 1);
      DigitRange(s[|s| - 1]);
    } else {
      assert Pow10(0) == 1.0;
    }
  }

  lemma DigitRange(c: char)
    requires Digit(c)
    ensures 0.0 <= DigitValue(c) as real <= 9.0
  {
  }

  // A run of digits that does not begin with 0 has its full magnitude.
  lemma NumberLeading(s: string)
    requires Digits(s) && s != "" && s[0] != '0'
    ensures Pow10(|s| - 1) <= Number(s)
  {
    hide Pow10, Number, Scale;
    var rest := s[1..];
    assert s == [s[0]] + rest && "" + [s[0]] == [s[0]];
    NumberConcat([s[0]], rest);
    NumberBound(rest);
    NumberEmpty();
    NumberAppend("", s[0]);
    ScaleOne(|rest|);
    ScaleMonotone(1.0, Number([s[0]]), |rest|);
  }

  function Zeros(n: nat): (s: string)
    ensures |s| == n && Digits(s) && forall i :: 0 <= i < n ==> s[i] == '0'
  {
    if n == 0 then "" else Zeros(n - 1) + "0"
  }

  lemma {:induction false} ZerosAreZero(s: string)
    requires forall i :: 0 <= i < |s| ==> s[i] == '0'
    ensures Number(s) == 0.0
    decreases |s|
  {
    if s != "" {
      ZerosAreZero(s[..|s| - 1]);
    }
  }

  // Equally long runs order as their first difference does.
  lemma NumberOrder(a: string, b: string, i: nat)
    requires Digits(a) && Digits(b) && |a| == |b| && i < |a|
    requires a[..i] == b[..i] && a[i] < b[i]
    ensures Number(a) < Number(b)
  {
    hide Pow10, Number, Scale;
    var n := |a| - i - 1;
    SplitAt(a, i);
    SplitAt(b, i);
    NumberBound(a[i + 1..]);
    NumberBound(b[i + 1..]);
    var x, y := DigitValue(a[i]) as real, DigitValue(b[i]) as real;
    ScaleAdd(x, 1.0, n);
    ScaleOne(n);
    ScaleMonotone(x + 1.0, y, n);
    assert |a[i + 1..]| == n && |b[i + 1..]| == n;
  }

  lemma SplitAt(s: string, i: nat)
    requires Digits(s) && i < |s|
    ensures Number(s) ==
            Scale(Number(s[..i]), |s| - i) + Scale(DigitValue(s[i]) as real, |s| - i - 1) + Number(s[i + 1..])
  {
    hide Pow10, Number, Scale;
    var front, back := s[..i], s[i + 1..];
    assert s == (front + [s[i]]) + back;
    NumberConcat(front + [s[i]], back);
    NumberAppend(front, s[i]);
    ScaleAdd(Number(front) * 10.0, DigitValue(s[i]) as real, |back|);
    ScaleNext(Number(front), |back|);
    assert |back| == |s| - i - 1 && |back| + 1 == |s| - i;
  }
}
