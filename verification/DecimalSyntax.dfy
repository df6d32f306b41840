// The syntax of JSON numbers (section 6 of RFC 8259) and the value each one writes.
module DecimalSyntax {
  import opened Wrappers
  import opened Decimal

  datatype Exponent = Exponent(marker: char, sign: string, digits: string)

  datatype Parts = Parts(negative: bool, integer: string, fraction: Option<string>, exponent: Option<Exponent>)

  predicate ValidExponent(e: Exponent) {
    && (e.marker == 'e' || e.marker == 'E')
    && (e.sign == "" || e.sign == "+" || e.sign == "-")
    && e.digits != "" && Digits(e.digits)
  }

  predicate ValidParts(p: Parts) {
    && p.integer != "" && Digits(p.integer) && (p.integer[0] == '0' ==> |p.integer| == 1)
    && (p.fraction.Some? ==> p.fraction.value != "" && Digits(p.fraction.value))
    && (p.exponent.Some? ==> ValidExponent(p.exponent.value))
  }

  function ExponentText(e: Option<Exponent>): string {
    if e.None? then "" else [e.value.marker] + e.value.sign + e.value.digits
  }

  function FractionText(f: Option<string>): string {
    if f.None? then "" else "." + f.value
  }

  function Text(p: Parts): string {
    (if p.negative then "-" else "") + p.integer + FractionText(p.fraction) + ExponentText(p.exponent)
  }

  function FractionDigits(p: Parts): string {
    if p.fraction.None? then "" else p.fraction.value
  }

  function Whole(s: string): nat
    requires Digits(s)
  {
    if s == "" then 0 else Whole(s[..|s| - 1]) * 10 + DigitValue(s[|s| - 1])
  }

  function ExponentValue(e: Option<Exponent>): int
    requires e.Some? ==> ValidExponent(e.value)
  {
    if e.None? then 0
    else if e.value.sign == "-" then -(Whole(e.value.digits) as int)
    else Whole(e.value.digits)
  }

  function ExponentOf(p: Parts): int
    requires ValidParts(p)
  {
    ExponentValue(p.exponent)
  }

  // The exact number that the parts write.
  function PartsValue(p: Parts): real
    requires ValidParts(p)
  {
    var magnitude := Scale(Number(p.integer + FractionDigits(p)), ExponentOf(p) - |FractionDigits(p)|);
    if p.negative then -magnitude else magnitude
  }

  // An exponent as written fits a signed 32-bit integer.
  predicate Fits(exponent: int) {
    -0x8000_0000 <= exponent <= 0x7fff_ffff
  }

  // The digits at the front of a string.
  function DigitRun(s: string): (n: nat)
    ensures n <= |s| && Digits(s[..n]) && (n < |s| ==> !Digit(s[n]))
  {
    if s == "" || !Digit(s[0]) then 0
    else
      var n := 1 + DigitRun(s[1..]);
      assert s[..n] == [s[0]] + s[1..][..n - 1];
      n
  }

  lemma RunUnique(s: string, n: nat)
    requires n <= |s| && Digits(s[..n]) && (n < |s| ==> !Digit(s[n]))
    ensures n == DigitRun(s)
  {
    var m := DigitRun(s);
    assert forall i :: 0 <= i < m ==> s[..m][i] == s[i];
    assert forall i :: 0 <= i < n ==> s[..n][i] == s[i];
  }

  function Unsigned(p: Parts): string {
    p.integer + FractionText(p.fraction) + ExponentText(p.exponent)
  }

  // A lexeme splits into parts in one way only.
  lemma Unambiguous(p: Parts, q: Parts)
    requires ValidParts(p) && ValidParts(q) && Text(p) == Text(q)
    ensures p == q
  {
    hide ValidExponent, FractionText, ExponentText;
    SignOf(p);
    SignOf(q);
    assert Unsigned(p) == Text(p)[if p.negative then 1 else 0..];
    assert Unsigned(q) == Text(q)[if q.negative then 1 else 0..];
    IntegerUnique(p, q);
    FractionUnique(p, q);
  }

  lemma IntegerUnique(p: Parts, q: Parts)
    requires ValidParts(p) && ValidParts(q) && Unsigned(p) == Unsigned(q)
    ensures p.integer == q.integer
    ensures FractionText(p.fraction) + ExponentText(p.exponent) == FractionText(q.fraction) + ExponentText(q.exponent)
  {
    hide ValidExponent, FractionText, ExponentText;
    var t, n := Unsigned(p), |p.integer|;
    IntegerRun(p, t);
    IntegerRun(q, t);
    assert p.integer == t[..n] == q.integer;
    assert FractionText(p.fraction) + ExponentText(p.exponent) == t[n..];
    assert FractionText(q.fraction) + ExponentText(q.exponent) == t[n..];
  }

  lemma SignOf(p: Parts)
    requires ValidParts(p)
    ensures Text(p) != "" && (Text(p)[0] == '-' <==> p.negative)
  {
  }

  lemma IntegerRun(p: Parts, t: string)
    requires ValidParts(p) && t == p.integer + FractionText(p.fraction) + ExponentText(p.exponent)
    ensures |p.integer| == DigitRun(t)
  {
    assert t[..|p.integer|] == p.integer;
    RunUnique(t, |p.integer|);
  }

  lemma FractionUnique(p: Parts, q: Parts)
    requires ValidParts(p) && ValidParts(q)
    requires FractionText(p.fraction) + ExponentText(p.exponent) == FractionText(q.fraction) + ExponentText(q.exponent)
    ensures p.fraction == q.fraction && p.exponent == q.exponent
  {
    hide ExponentText, Digits;
    PointStarts(p);
    PointStarts(q);
    if p.fraction.Some? {
      DigitsThenExponent(p.fraction.value, p.exponent, q.fraction.value, q.exponent);
    }
    ExponentUnique(p.exponent, q.exponent);
  }

  lemma PointStarts(p: Parts)
    requires ValidParts(p)
    ensures var t := FractionText(p.fraction) + ExponentText(p.exponent);
            && (p.fraction.Some? <==> t != "" && t[0] == '.')
            && (p.fraction.Some? ==> t[1..] == p.fraction.value + ExponentText(p.exponent))
            && (p.fraction.None? ==> t == ExponentText(p.exponent))
  {
  }

  lemma DigitsThenExponent(a: string, x: Option<Exponent>, b: string, y: Option<Exponent>)
    requires Digits(a) && Digits(b) && a + ExponentText(x) == b + ExponentText(y)
    requires (x.Some? ==> ValidExponent(x.value)) && (y.Some? ==> ValidExponent(y.value))
    ensures a == b && ExponentText(x) == ExponentText(y)
  {
    var t := a + ExponentText(x);
    assert t[..|a|] == a && t[|a|..] == ExponentText(x);
    assert t[..|b|] == b && t[|b|..] == ExponentText(y);
    RunUnique(t, |a|);
    RunUnique(t, |b|);
  }

  lemma ExponentUnique(a: Option<Exponent>, b: Option<Exponent>)
    requires (a.Some? ==> ValidExponent(a.value)) && (b.Some? ==> ValidExponent(b.value))
    requires ExponentText(a) == ExponentText(b)
    ensures a == b
  {
    var t := ExponentText(a);
    assert a.Some? <==> t != "";
    assert b.Some? <==> t != "";
    if a.Some? {
      assert a.value.marker == t[0] == b.value.marker;
      assert t[1..] == a.value.sign + a.value.digits;
      assert t[1..] == b.value.sign + b.value.digits;
      SignUnique(a.value.sign, a.value.digits, b.value.sign, b.value.digits);
    }
  }

  lemma SignUnique(a: string, x: string, b: string, y: string)
    requires a == "" || a == "+" || a == "-"
    requires b == "" || b == "+" || b == "-"
    requires x != "" && Digits(x) && y != "" && Digits(y) && a + x == b + y
    ensures a == b && x == y
  {
    var t := a + x;
    assert t[0] == if a == "" then x[0] else a[0];
    assert t[0] == if b == "" then y[0] else b[0];
    assert t[|a|..] == x && t[|b|..] == y;
  }
}
