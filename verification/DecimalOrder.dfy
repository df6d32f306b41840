// Comparing decimals digit by digit (internal/action/value.go): the result is the sign
// of the exact difference.
module DecimalOrder {
  import opened Decimal

  function Sign(x: real): int {
    if x < 0.0 then -1 else if x == 0.0 then 0 else 1
  }

  // What comparison is used on: normalised numbers, and zero in any representation.
  predicate Comparable(d: Decimal) {
    IsZero(d) || Normal(d)
  }

  function Magnitude(d: Decimal): real
    requires Digits(d.coefficient)
  {
    Scale(Number(d.coefficient), d.exponent)
  }

  lemma ComparableDigits(d: Decimal)
    requires Comparable(d)
    ensures Digits(d.coefficient)
    ensures Value(d) == if d.negative then -Magnitude(d) else Magnitude(d)
  {
  }

  lemma ZeroMagnitude(d: Decimal)
    requires IsZero(d)
    ensures Digits(d.coefficient) && Value(d) == 0.0
  {
    hide Pow10;
    ZerosAreZero(d.coefficient);
  }

  // A normalised number other than zero lies in the decade that its length and
  // exponent give.
  lemma Decade(d: Decimal)
    requires Normal(d) && !IsZero(d)
    ensures Pow10(|d.coefficient| + d.exponent - 1) <= Magnitude(d) < Pow10(|d.coefficient| + d.exponent)
    ensures 0.0 < Magnitude(d)
  {
    hide Pow10, Number, Scale;
    var n, e := |d.coefficient|, d.exponent;
    NumberLeading(d.coefficient);
    NumberBound(d.coefficient);
    ScalePower(n - 1, e);
    ScalePower(n, e);
    assert n - 1 + e == n + e - 1;
    ScaleMonotone(Pow10(n - 1), Number(d.coefficient), e);
    ScaleMonotone(Number(d.coefficient), Pow10(n), e);
  }

  function Padded(s: string, width: nat): string
    requires |s| <= width
  {
    s + Zeros(width - |s|)
  }

  lemma PaddedMagnitude(d: Decimal, width: nat)
    requires Digits(d.coefficient) && |d.coefficient| <= width
    ensures Digits(Padded(d.coefficient, width))
    ensures Magnitude(d) == Scale(Number(Padded(d.coefficient, width)), |d.coefficient| + d.exponent - width)
  {
    hide Pow10, Number, Scale;
    var k := width - |d.coefficient|;
    NumberConcat(d.coefficient, Zeros(k));
    ZerosAreZero(Zeros(k));
    assert Number(Padded(d.coefficient, width)) == Scale(Number(d.coefficient), k);
    ScaleScale(Number(d.coefficient), k, d.exponent - k);
    assert k + (d.exponent - k) == d.exponent;
  }

  // The digits of one number against the other's, the shorter padded with zeros.
  method CompareDigits(left: string, right: string) returns (c: int)
    requires Digits(left) && Digits(right)
    ensures var width := if |left| < |right| then |right| else |left|;
            c == Sign(Number(Padded(left, width)) - Number(Padded(right, width)))
  {
    hide Number, Pow10;
    var width := if |left| < |right| then |right| else |left|;
    ghost var a, b := Padded(left, width), Padded(right, width);
    for index := 0 to width
      invariant a[..index] == b[..index]
    {
      var leftDigit := if index < |left| then left[index] else '0';
      var rightDigit := if index < |right| then right[index] else '0';
      assert a[index] == leftDigit && b[index] == rightDigit;
      if leftDigit < rightDigit {
        NumberOrder(a, b, index);
        return -1;
      }
      if leftDigit > rightDigit {
        NumberOrder(b, a, index);
        return 1;
      }
    }
    assert a == a[..width] && b == b[..width];
    return 0;
  }

  lemma ScaledSign(x: real, y: real, e: int)
    ensures Sign(Scale(x, e) - Scale(y, e)) == Sign(x - y)
  {
    hide Scale;
    ScaleMonotone(x, y, e);
    ScaleMonotone(y, x, e);
  }

  method CompareMagnitude(left: Decimal, right: Decimal) returns (c: int)
    requires Normal(left) && Normal(right) && !IsZero(left) && !IsZero(right)
    ensures c == Sign(Magnitude(left) - Magnitude(right))
  {
    hide Number, Pow10, Scale, Magnitude, Padded;
    var leftMagnitude := |left.coefficient| + left.exponent;
    var rightMagnitude := |right.coefficient| + right.exponent;
    Decade(left);
    Decade(right);
    if leftMagnitude < rightMagnitude {
      PowMonotone(leftMagnitude, rightMagnitude - 1);
      return -1;
    }
    if leftMagnitude > rightMagnitude {
      PowMonotone(rightMagnitude, leftMagnitude - 1);
      return 1;
    }
    c := CompareDigits(left.coefficient, right.coefficient);
    ghost var width := if |left.coefficient| < |right.coefficient| then |right.coefficient| else |left.coefficient|;
    PaddedMagnitude(left, width);
    PaddedMagnitude(right, width);
    ScaledSign(Number(Padded(left.coefficient, width)), Number(Padded(right.coefficient, width)),
               leftMagnitude - width);
  }

  predicate Equal(d: Decimal, other: Decimal) {
    if IsZero(d) || IsZero(other) then IsZero(d) && IsZero(other) else d == other
  }

  // Comparison is the sign of the exact difference (Compare).
  method Compare(d: Decimal, other: Decimal) returns (c: int)
    requires Comparable(d) && Comparable(other)
    ensures Digits(d.coefficient) && Digits(other.coefficient)
    ensures c == Sign(Value(d) - Value(other))
  {
    hide Number, Pow10, Scale, Magnitude, Value, Normal;
    ComparableDigits(d);
    ComparableDigits(other);
    SignFacts(d);
    SignFacts(other);
    if Equal(d, other) {
      return 0;
    }
    if IsZero(d) {
      return if other.negative then 1 else -1;
    }
    if IsZero(other) {
      return if d.negative then -1 else 1;
    }
    if d.negative != other.negative {
      return if d.negative then -1 else 1;
    }
    var comparison := CompareMagnitude(d, other);
    return if d.negative then -comparison else comparison;
  }

  lemma SignFacts(d: Decimal)
    requires Comparable(d)
    ensures Digits(d.coefficient)
    ensures IsZero(d) ==> Value(d) == 0.0
    ensures !IsZero(d) ==> (if d.negative then Value(d) < 0.0 else 0.0 < Value(d))
  {
    hide Number, Pow10, Scale, Magnitude;
    ComparableDigits(d);
    if IsZero(d) {
      ZeroMagnitude(d);
    } else {
      Decade(d);
    }
  }

  // --------------------------------------------------------- one form for each value

  lemma {:induction false} SameNumber(a: string, b: string)
    requires Digits(a) && Digits(b) && |a| == |b| && Number(a) == Number(b)
    ensures a == b
  {
    if a != b {
      var i := FirstDiff(a, b, 0);
      if a[i] < b[i] {
        NumberOrder(a, b, i);
      } else {
        NumberOrder(b, a, i);
      }
    }
  }

  lemma {:induction false} FirstDiff(a: string, b: string, from: nat) returns (i: nat)
    requires |a| == |b| && from <= |a| && a[..from] == b[..from] && a != b
    ensures i < |a| && a[..i] == b[..i] && a[i] != b[i]
    decreases |a| - from
  {
    assert a[..|a|] == a && b[..|b|] == b;
    if a[from] != b[from] {
      i := from;
    } else {
      i := FirstDiff(a, b, from + 1);
    }
  }

  lemma SamePadded(a: string, b: string, width: nat)
    requires |a| <= width && |b| <= width && Padded(a, width) == Padded(b, width)
    requires a != "" && b != "" && a[|a| - 1] != '0' && b[|b| - 1] != '0'
    ensures a == b
  {
    var p, q := Padded(a, width), Padded(b, width);
    assert forall i :: 0 <= i < width ==> p[i] == if i < |a| then a[i] else '0';
    assert forall i :: 0 <= i < width ==> q[i] == if i < |b| then b[i] else '0';
    assert p[|b| - 1] == q[|b| - 1] && p[|a| - 1] == q[|a| - 1];
    assert |a| == |b|;
    assert a == p[..|a|] && b == q[..|b|];
  }

  lemma SameDecade(a: Decimal, b: Decimal)
    requires Normal(a) && !IsZero(a) && Normal(b) && !IsZero(b) && Magnitude(a) == Magnitude(b)
    ensures |a.coefficient| + a.exponent == |b.coefficient| + b.exponent
  {
    hide Pow10, Scale, Magnitude, Normal;
    var m, n := |a.coefficient| + a.exponent, |b.coefficient| + b.exponent;
    Decade(a);
    Decade(b);
    if m < n {
      PowMonotone(m, n - 1);
    } else if n < m {
      PowMonotone(n, m - 1);
    }
  }

  lemma ScaledEqual(x: real, y: real, e: int)
    requires Scale(x, e) == Scale(y, e)
    ensures x == y
  {
    hide Scale;
    ScaledSign(x, y, e);
  }

  // Each value has one normal form: numbers that compare equal are identical.
  lemma NormalUnique(a: Decimal, b: Decimal)
    requires Normal(a) && Normal(b)
    ensures Digits(a.coefficient) && Digits(b.coefficient)
    ensures Value(a) == Value(b) <==> a == b
  {
    hide Number, Pow10, Scale, Magnitude, Value, Padded;
    SignFacts(a);
    SignFacts(b);
    ComparableDigits(a);
    ComparableDigits(b);
    if Value(a) == Value(b) && !IsZero(a) {
      SameDecade(a, b);
      var width := if |a.coefficient| < |b.coefficient| then |b.coefficient| else |a.coefficient|;
      PaddedMagnitude(a, width);
      PaddedMagnitude(b, width);
      var p, q := Padded(a.coefficient, width), Padded(b.coefficient, width);
      ScaledEqual(Number(p), Number(q), |a.coefficient| + a.exponent - width);
      PaddedLength(a.coefficient, width);
      PaddedLength(b.coefficient, width);
      SameNumber(p, q);
      SamePadded(a.coefficient, b.coefficient, width);
    }
  }

  lemma PaddedLength(s: string, width: nat)
    requires |s| <= width
    ensures |Padded(s, width)| == width
  {
  }

  // Equality of representations is equality of values.
  lemma EqualIffSameValue(d: Decimal, other: Decimal)
    requires Comparable(d) && Comparable(other)
    ensures Digits(d.coefficient) && Digits(other.coefficient)
    ensures Equal(d, other) <==> Value(d) == Value(other)
  {
    hide Value, Normal;
    SignFacts(d);
    SignFacts(other);
    if !IsZero(d) && !IsZero(other) {
      NormalUnique(d, other);
    }
  }
}
