// Parsing a JSON number into its canonical decimal (internal/action/value.go).
module DecimalParse {
  import opened Wrappers
  import opened Decimal
  import opened DecimalOrder
  import opened DecimalSyntax

  datatype DecimalError = LexemeLength | Syntax | ExponentRange | TooManyDigits | ExponentLimit

  // Where the digits of a number lie in its lexeme, with its written exponent.
  datatype Scan = Scan(negative: bool, integerStart: nat, integerEnd: nat, fractionStart: nat, fractionEnd: nat,
                       exponent: int)

  predicate ScanOf(lexeme: string, scan: Scan, p: Parts) {
    && ValidParts(p) && Text(p) == lexeme && Fits(ExponentOf(p))
    && scan.integerStart < scan.integerEnd <= scan.fractionStart <= scan.fractionEnd <= |lexeme|
    && scan.negative == p.negative
    && lexeme[scan.integerStart..scan.integerEnd] == p.integer
    && lexeme[scan.fractionStart..scan.fractionEnd] == FractionDigits(p)
    && scan.exponent == ExponentOf(p)
  }

  // ------------------------------------------------------------------- scanning

  method ScanDigits(lexeme: string, from: nat) returns (end: nat)
    requires from <= |lexeme|
    ensures end == from + DigitRun(lexeme[from..])
  {
    end := from;
    while end < |lexeme| && '0' <= lexeme[end] <= '9'
      invariant from <= end <= |lexeme|
      invariant forall i :: from <= i < end ==> Digit(lexeme[i])
    {
      end := end + 1;
    }
    assert lexeme[from..][..end - from] == lexeme[from..end];
    RunUnique(lexeme[from..], end - from);
  }

  // Where the parts of a valid number lie.
  lemma Layout(p: Parts, s: string) returns (start: nat, integerEnd: nat, fractionEnd: nat)
    requires ValidParts(p) && s == Text(p)
    ensures start == (if p.negative then 1 else 0) && start < integerEnd <= fractionEnd <= |s|
    ensures s[0] == '-' <==> p.negative
    ensures s[start..integerEnd] == p.integer && integerEnd == start + DigitRun(s[start..])
    ensures s[integerEnd..fractionEnd] == FractionText(p.fraction)
    ensures p.fraction.Some? <==> integerEnd < |s| && s[integerEnd] == '.'
    ensures p.fraction.Some? ==>
              && integerEnd + 1 < fractionEnd && s[integerEnd + 1..fractionEnd] == p.fraction.value
              && fractionEnd == integerEnd + 1 + DigitRun(s[integerEnd + 1..])
    ensures p.fraction.None? ==> fractionEnd == integerEnd
    ensures s[fractionEnd..] == ExponentText(p.exponent)
  {
    hide ValidExponent, FractionText, ExponentText;
    start := if p.negative then 1 else 0;
    integerEnd := start + |p.integer|;
    fractionEnd := integerEnd + |FractionText(p.fraction)|;
    SignOf(p);
    FourSlices(if p.negative then "-" else "", p.integer, FractionText(p.fraction), ExponentText(p.exponent));
    IntegerRun(p, Unsigned(p));
    PointAt(p, s, integerEnd, fractionEnd);
  }

  lemma FourSlices(a: string, b: string, c: string, d: string)
    ensures var s := a + b + c + d;
            && s[|a|..] == b + c + d && s[|a|..|a| + |b|] == b
            && s[|a| + |b|..] == c + d && s[|a| + |b|..|a| + |b| + |c|] == c
            && s[|a| + |b| + |c|..] == d
  {
  }

  lemma PointAt(p: Parts, s: string, integerEnd: nat, fractionEnd: nat)
    requires ValidParts(p) && integerEnd <= fractionEnd <= |s|
    requires s[integerEnd..] == FractionText(p.fraction) + ExponentText(p.exponent)
    requires s[integerEnd..fractionEnd] == FractionText(p.fraction)
    ensures p.fraction.Some? <==> integerEnd < |s| && s[integerEnd] == '.'
    ensures p.fraction.Some? ==>
              && integerEnd + 1 < fractionEnd && s[integerEnd + 1..fractionEnd] == p.fraction.value
              && fractionEnd == integerEnd + 1 + DigitRun(s[integerEnd + 1..])
    ensures p.fraction.None? ==> fractionEnd == integerEnd
  {
    hide ValidExponent, ExponentText;
    PointStarts(p);
    if p.fraction.Some? {
      FractionRun(p);
      assert s[integerEnd + 1..] == s[integerEnd..][1..];
      assert s[integerEnd + 1..fractionEnd] == s[integerEnd..fractionEnd][1..];
    }
  }

  lemma FractionRun(p: Parts)
    requires ValidParts(p) && p.fraction.Some?
    ensures DigitRun(p.fraction.value + ExponentText(p.exponent)) == |p.fraction.value|
  {
    var t := p.fraction.value + ExponentText(p.exponent);
    assert t[..|p.fraction.value|] == p.fraction.value;
    RunUnique(t, |p.fraction.value|);
  }

  // ------------------------------------------------------------------ the exponent

  lemma {:induction false} WholeGrows(s: string, n: nat)
    requires Digits(s) && n <= |s|
    ensures Whole(s[..n]) <= Whole(s)
    decreases |s|
  {
    if n < |s| {
      WholeGrows(s[..|s| - 1], n);
      assert s[..|s| - 1][..n] == s[..n];
    } else {
      assert s[..n] == s;
    }
  }

  lemma WholeStep(s: string, n: nat)
    requires Digits(s) && n < |s|
    ensures Whole(s[..n + 1]) == Whole(s[..n]) * 10 + DigitValue(s[n])
  {
    assert s[..n + 1][..n] == s[..n];
  }

  // The written exponent, refused before any step could leave the range.
  method Accumulate(digits: string, negative: bool) returns (out: Option<int>)
    requires Digits(digits)
    ensures var value := if negative then -(Whole(digits) as int) else Whole(digits);
            out == if Fits(value) then Some(value) else None
  {
    assert Whole(digits[..0]) == 0;
    hide Whole;
    var limit := if negative then 0x8000_0000 else 0x7fff_ffff;
    var exponent: int := 0;
    for index := 0 to |digits|
      invariant exponent == Whole(digits[..index]) <= limit
    {
      var digit := DigitValue(digits[index]);
      WholeStep(digits, index);
      WholeGrows(digits, index + 1);
      if (limit - digit) / 10 < exponent {
        return None;
      }
      exponent := exponent * 10 + digit;
    }
    assert digits[..|digits|] == digits;
    return Some(if negative then -exponent else exponent);
  }

  predicate ValidTail(e: Option<Exponent>) {
    e.Some? ==> ValidExponent(e.value)
  }

  // Where the sign and the digits of an exponent lie.
  lemma ExponentLayout(e: Exponent, t: string)
    requires ValidExponent(e) && t == ExponentText(Some(e))
    ensures 2 <= |t| && t[0] == e.marker && (e.sign != "" <==> t[1] == '+' || t[1] == '-')
    ensures e.sign != "" ==> e.sign == [t[1]]
    ensures t[1 + |e.sign|..] == e.digits && DigitRun(e.digits) == |e.digits|
  {
    assert t[1] == (e.sign + e.digits)[0];
    assert e.digits[..|e.digits|] == e.digits;
    RunUnique(e.digits, |e.digits|);
  }

  // The exponent part, if any, from `from` on. Anything else up to the end of the
  // lexeme is not a number with an exponent in range.
  method ScanExponent(lexeme: string, from: nat) returns (out: Result<int, DecimalError>, ghost e: Option<Exponent>)
    requires from <= |lexeme|
    ensures out.Ok? ==>
              ValidTail(e) && ExponentText(e) == lexeme[from..] && out.value == ExponentValue(e) && Fits(out.value)
    ensures out.Err? ==> forall x :: ValidTail(x) && ExponentText(x) == lexeme[from..] ==> !Fits(ExponentValue(x))
  {
    hide Whole, DigitRun;
    ghost var t := lexeme[from..];
    e := None;
    if from == |lexeme| {
      return Ok(0), None;
    }
    forall x | ValidTail(x) && ExponentText(x) == t
      ensures x.Some? && ValidExponent(x.value) && 2 <= |t| && t[0] == x.value.marker
      ensures (x.value.sign != "" <==> t[1] == '+' || t[1] == '-') && (x.value.sign != "" ==> x.value.sign == [t[1]])
      ensures t[1 + |x.value.sign|..] == x.value.digits && DigitRun(x.value.digits) == |x.value.digits|
    {
      assert x.Some?;
      ExponentLayout(x.value, t);
    }
    if lexeme[from] != 'e' && lexeme[from] != 'E' {
      return Err(Syntax), None;
    }
    var index, negative := from + 1, false;
    var signed := index < |lexeme| && (lexeme[index] == '+' || lexeme[index] == '-');
    if signed {
      negative := lexeme[index] == '-';
      index := index + 1;
    }
    var end := ScanDigits(lexeme, index);
    assert t[index - from..] == lexeme[index..];
    if end == index {
      return Err(Syntax), None;
    }
    RunDigits(lexeme[index..]);
    assert lexeme[index..][..end - index] == lexeme[index..end];
    assert end == |lexeme| ==> lexeme[index..end] == lexeme[index..];
    var value := Accumulate(lexeme[index..end], negative);
    if value.None? {
      return Err(ExponentRange), None;
    }
    if end != |lexeme| {
      return Err(Syntax), None;
    }
    e := Some(Exponent(lexeme[from], if signed then [lexeme[from + 1]] else "", lexeme[index..end]));
    assert ExponentText(e) == t;
    return Ok(value.value), e;
  }

  lemma RunDigits(s: string)
    ensures Digits(s[..DigitRun(s)])
  {
  }

  // ---------------------------------------------------------------- the whole number

  function IntegerStart(s: string): nat {
    if s != "" && s[0] == '-' then 1 else 0
  }

  function IntegerEnd(s: string): (n: nat)
    ensures n <= |s|
  {
    IntegerStart(s) + DigitRun(s[IntegerStart(s)..])
  }

  function FractionEnd(s: string): (n: nat)
    ensures IntegerEnd(s) <= n <= |s|
  {
    var at := IntegerEnd(s);
    if at < |s| && s[at] == '.' then at + 1 + DigitRun(s[at + 1..]) else at
  }

  // A number's parts are where scanning looks for them.
  lemma Located(p: Parts, s: string)
    requires ValidParts(p) && Text(p) == s
    ensures s != "" && (p.negative <==> s[0] == '-')
    ensures IntegerStart(s) < IntegerEnd(s) && s[IntegerStart(s)..IntegerEnd(s)] == p.integer
    ensures p.fraction.Some? <==> IntegerEnd(s) < |s| && s[IntegerEnd(s)] == '.'
    ensures p.fraction.Some? ==>
              IntegerEnd(s) + 1 < FractionEnd(s) && s[IntegerEnd(s) + 1..FractionEnd(s)] == p.fraction.value
    ensures s[FractionEnd(s)..] == ExponentText(p.exponent)
  {
    hide ValidExponent, FractionText, ExponentText, DigitRun;
    SignOf(p);
    var start, integerEnd, fractionEnd := Layout(p, s);
  }

  ghost predicate NoNumber(s: string) {
    forall q :: ValidParts(q) && Text(q) == s ==> !Fits(ExponentOf(q))
  }

  lemma NotLocated(s: string)
    requires s == "" || IntegerStart(s) == IntegerEnd(s)
             || (s[IntegerStart(s)] == '0' && IntegerStart(s) + 1 < IntegerEnd(s))
             || (IntegerEnd(s) < |s| && s[IntegerEnd(s)] == '.' && IntegerEnd(s) + 1 == FractionEnd(s))
    ensures NoNumber(s)
  {
    hide ValidExponent, DigitRun, IntegerEnd, FractionEnd, ExponentText, FractionText, Text;
    forall q
      ensures ValidParts(q) && Text(q) == s ==> !Fits(ExponentOf(q))
    {
      if ValidParts(q) && Text(q) == s {
        Located(q, s);
        assert false;
      }
    }
  }

  lemma NoExponent(s: string)
    requires forall x :: ValidTail(x) && ExponentText(x) == s[FractionEnd(s)..] ==> !Fits(ExponentValue(x))
    ensures NoNumber(s)
  {
    hide DigitRun, IntegerEnd, FractionEnd, ExponentText, FractionText, Text, Whole;
    forall q | ValidParts(q) && Text(q) == s
      ensures !Fits(ExponentOf(q))
    {
      Located(q, s);
    }
  }

  lemma DigitSpan(s: string, from: nat)
    requires from <= |s|
    ensures from + DigitRun(s[from..]) <= |s| && Digits(s[from..from + DigitRun(s[from..])])
  {
    var n := DigitRun(s[from..]);
    assert s[from..][..n] == s[from..from + n];
  }

  // The fraction, if any: where its digits begin and end.
  method ScanFraction(lexeme: string, integerEnd: nat) returns (ok: bool, start: nat, end: nat)
    requires integerEnd == IntegerEnd(lexeme)
    ensures end == FractionEnd(lexeme)
    ensures var point := integerEnd < |lexeme| && lexeme[integerEnd] == '.';
            && start == (if point then integerEnd + 1 else integerEnd)
            && (point && ok ==> start < end && Digits(lexeme[start..end]))
            && (!point ==> ok && end == integerEnd)
    ensures !ok ==> NoNumber(lexeme)
  {
    hide DigitRun, NoNumber, IntegerEnd;
    if !(integerEnd < |lexeme| && lexeme[integerEnd] == '.') {
      return true, integerEnd, integerEnd;
    }
    start := integerEnd + 1;
    end := ScanDigits(lexeme, start);
    DigitSpan(lexeme, start);
    if end == start {
      NotLocated(lexeme);
      return false, start, end;
    }
    return true, start, end;
  }

  // The whole syntax (the first half of ParseDecimal).
  method ScanNumber(lexeme: string) returns (out: Result<Scan, DecimalError>, ghost p: Parts)
    requires lexeme != ""
    ensures out.Ok? ==> ScanOf(lexeme, out.value, p)
    ensures out.Err? ==> NoNumber(lexeme)
  {
    hide ExponentText, FractionText, Whole, ValidExponent, NoNumber, DigitRun, Digits, FractionEnd, Text;
    p := Parts(false, "", None, None);
    var negative := lexeme[0] == '-';
    var integerStart := if negative then 1 else 0;
    var integerEnd := ScanDigits(lexeme, integerStart);
    DigitSpan(lexeme, integerStart);
    if integerEnd == integerStart || (lexeme[integerStart] == '0' && integerStart + 1 < integerEnd) {
      NotLocated(lexeme);
      return Err(Syntax), p;
    }
    var ok, fractionStart, fractionEnd := ScanFraction(lexeme, integerEnd);
    if !ok {
      return Err(Syntax), p;
    }
    var exponent, e := ScanExponent(lexeme, fractionEnd);
    if exponent.Err? {
      NoExponent(lexeme);
      return Err(exponent.error), p;
    }
    var fraction := if fractionStart == integerEnd then None else Some(lexeme[fractionStart..fractionEnd]);
    p := Parts(negative, lexeme[integerStart..integerEnd], fraction, e);
    Assembled(lexeme, p, integerStart, integerEnd, fractionStart, fractionEnd);
    return Ok(Scan(negative, integerStart, integerEnd, fractionStart, fractionEnd, exponent.value)), p;
  }

  lemma Assembled(s: string, p: Parts, a: nat, b: nat, c: nat, d: nat)
    requires a <= b <= c <= d <= |s| && s != ""
    requires a == (if p.negative then 1 else 0) && (p.negative ==> s[0] == '-')
    requires p.integer == s[a..b] && s[d..] == ExponentText(p.exponent)
    requires p.fraction.None? ==> b == c == d
    requires p.fraction.Some? ==> c == b + 1 && s[b] == '.' && p.fraction.value == s[c..d]
    ensures Text(p) == s && FractionDigits(p) == s[c..d]
  {
    hide ExponentText;
    assert s == s[..a] + s[a..b] + s[b..d] + s[d..];
    assert s[..a] == if p.negative then "-" else "";
    if p.fraction.Some? {
      assert s[b..d] == "." + s[c..d];
    }
  }

  // ------------------------------------------------------------------ normalisation

  predicate AllZero(s: string, from: nat, to: nat)
    requires from <= to <= |s|
  {
    forall i :: from <= i < to ==> s[i] == '0'
  }

  method FirstNonZero(s: string, from: nat, to: nat) returns (index: int)
    requires from <= to <= |s|
    ensures index == -1 ==> AllZero(s, from, to)
    ensures index != -1 ==> from <= index < to && s[index] != '0' && AllZero(s, from, index)
  {
    index := from;
    while index < to
      invariant from <= index <= to && AllZero(s, from, index)
    {
      if s[index] != '0' {
        return;
      }
      index := index + 1;
    }
    index := -1;
  }

  method LastNonZero(s: string, from: nat, to: nat) returns (index: int)
    requires from <= to <= |s|
    ensures index == -1 ==> AllZero(s, from, to)
    ensures index != -1 ==> from <= index < to && s[index] != '0' && AllZero(s, index + 1, to)
  {
    index := to - 1;
    while from <= index
      invariant from - 1 <= index < to && AllZero(s, index + 1, to)
    {
      if s[index] != '0' {
        return;
      }
      index := index - 1;
    }
    index := -1;
  }

  // Zeros before the first and after the last significant digit only move the exponent.
  lemma TrimmedValue(ds: string, first: nat, last: nat, e: int, coefficient: string, moved: int)
    requires Digits(ds) && first <= last < |ds| && AllZero(ds, 0, first) && AllZero(ds, last + 1, |ds|)
    requires coefficient == ds[first..last + 1] && moved == e + (|ds| - 1 - last)
    ensures Digits(coefficient)
    ensures Scale(Number(ds), e) == Scale(Number(coefficient), moved)
  {
    hide Pow10, Number, Scale;
    var front, back := ds[..first], ds[last + 1..];
    assert ds == front + coefficient + back;
    NumberConcat(front + coefficient, back);
    NumberConcat(front, coefficient);
    ZerosAreZero(front);
    ZerosAreZero(back);
    ScaleMonotone(0.0, 0.0, |coefficient|);
    assert Number(ds) == Scale(Number(coefficient), |back|);
    ScaleScale(Number(coefficient), |back|, e);
    assert |back| + e == moved;
  }

  // Zero digits write zero, whatever the exponent.
  lemma ZeroValue(p: Parts)
    requires ValidParts(p) && AllZero(p.integer + FractionDigits(p), 0, |p.integer + FractionDigits(p)|)
    ensures PartsValue(p) == 0.0 && Normal(ZERO) && Digits(ZERO.coefficient) && Value(ZERO) == 0.0
  {
    hide Pow10;
    ZerosAreZero(p.integer + FractionDigits(p));
    ZeroMagnitude(ZERO);
  }

  lemma NormalValue(p: Parts, first: nat, last: nat, d: Decimal)
    requires ValidParts(p)
    requires var ds := p.integer + FractionDigits(p);
             && first <= last < |ds| && AllZero(ds, 0, first) && AllZero(ds, last + 1, |ds|)
             && ds[first] != '0' && ds[last] != '0' && d.coefficient == ds[first..last + 1]
             && d.exponent == ExponentOf(p) - |FractionDigits(p)| + (|ds| - 1 - last)
    requires d.negative == p.negative
    ensures Normal(d) && Digits(d.coefficient) && Value(d) == PartsValue(p)
  {
    hide Pow10, Number, ExponentOf, Scale;
    TrimmedValue(p.integer + FractionDigits(p), first, last, ExponentOf(p) - |FractionDigits(p)|, d.coefficient,
                 d.exponent);
  }

  function DigitSpanLength(first: int, last: int, integerEnd: int, fractionStart: int): int {
    if last < integerEnd || fractionStart <= first then last - first + 1
    else integerEnd - first + last - fractionStart + 1
  }

  // The position of a lexeme index among the digits.
  function At(scan: Scan, index: int): int {
    if index < scan.integerEnd then index - scan.integerStart
    else scan.integerEnd - scan.integerStart + (index - scan.fractionStart)
  }

  // Dropping leading and trailing zeros (the second half of ParseDecimal). The number
  // is refused exactly when its normal form is outside the limits.
  method Normalize(lexeme: string, scan: Scan, ghost p: Parts)
    returns (out: Result<Decimal, DecimalError>, ghost normal: Decimal)
    requires ScanOf(lexeme, scan, p)
    ensures Normal(normal) && Digits(normal.coefficient) && Value(normal) == PartsValue(p)
    ensures out.Ok? <==> Canonical(normal)
    ensures out.Ok? ==> out.value == normal
    ensures out.Ok? ==> Canonical(out.value) && Value(out.value) == PartsValue(p)
  {
    hide Value, PartsValue, Text, ExponentOf, Digits, Coefficient;
    assert Ordered(lexeme, scan);
    assert SpanDigits(lexeme, scan) == p.integer + FractionDigits(p);
    var firstNonZero := FirstNonZero(lexeme, scan.integerStart, scan.integerEnd);
    if firstNonZero < 0 {
      firstNonZero := FirstNonZero(lexeme, scan.fractionStart, scan.fractionEnd);
    }
    if firstNonZero < 0 {
      ZeroValue(p);
      return Ok(ZERO), ZERO;
    }
    var lastNonZero := LastNonZero(lexeme, scan.fractionStart, scan.fractionEnd);
    if lastNonZero < 0 {
      lastNonZero := LastNonZero(lexeme, scan.integerStart, scan.integerEnd);
    }
    CoefficientDigits(lexeme, scan, firstNonZero, lastNonZero);
    var trailingZeros := scan.fractionEnd - lastNonZero - 1;
    if lastNonZero < scan.fractionStart {
      trailingZeros := scan.integerEnd - lastNonZero - 1 + (scan.fractionEnd - scan.fractionStart);
    }
    var exponent := scan.exponent - (scan.fractionEnd - scan.fractionStart) + trailingZeros;
    var significantDigits := DigitSpanLength(firstNonZero, lastNonZero, scan.integerEnd, scan.fractionStart);
    normal := Decimal(scan.negative, Coefficient(lexeme, scan, firstNonZero, lastNonZero), exponent);
    NormalValue(p, At(scan, firstNonZero), At(scan, lastNonZero), normal);
    NormalNonZero(normal);
    if MAX_DIGITS < significantDigits {
      return Err(TooManyDigits), normal;
    }
    if exponent < -MAX_EXPONENT || MAX_EXPONENT < exponent {
      return Err(ExponentLimit), normal;
    }
    return Ok(Decimal(scan.negative, Coefficient(lexeme, scan, firstNonZero, lastNonZero), exponent)), normal;
  }

  lemma NormalNonZero(d: Decimal)
    requires Normal(d)
    ensures Canonical(d) <==> |d.coefficient| <= MAX_DIGITS && -MAX_EXPONENT <= d.exponent <= MAX_EXPONENT
  {
  }

  function Coefficient(lexeme: string, scan: Scan, first: int, last: int): string
    requires 0 <= scan.integerEnd <= scan.fractionStart <= |lexeme|
    requires 0 <= first <= last < |lexeme|
  {
    if first < scan.integerEnd && scan.fractionStart <= last then
      lexeme[first..scan.integerEnd] + lexeme[scan.fractionStart..last + 1]
    else lexeme[first..last + 1]
  }

  // The first significant digit of the two spans, and the last.
  predicate FirstAt(s: string, scan: Scan, first: int)
    requires scan.integerStart <= scan.integerEnd <= scan.fractionStart <= scan.fractionEnd <= |s|
  {
    if scan.integerStart <= first < scan.integerEnd then s[first] != '0' && AllZero(s, scan.integerStart, first)
    else
      && scan.fractionStart <= first < scan.fractionEnd && s[first] != '0'
      && AllZero(s, scan.integerStart, scan.integerEnd) && AllZero(s, scan.fractionStart, first)
  }

  predicate LastAt(s: string, scan: Scan, last: int)
    requires scan.integerStart <= scan.integerEnd <= scan.fractionStart <= scan.fractionEnd <= |s|
  {
    if scan.fractionStart <= last < scan.fractionEnd then s[last] != '0' && AllZero(s, last + 1, scan.fractionEnd)
    else
      && scan.integerStart <= last < scan.integerEnd && s[last] != '0'
      && AllZero(s, last + 1, scan.integerEnd) && AllZero(s, scan.fractionStart, scan.fractionEnd)
  }

  predicate Ordered(s: string, scan: Scan) {
    scan.integerStart < scan.integerEnd <= scan.fractionStart <= scan.fractionEnd <= |s|
  }

  function SpanDigits(s: string, scan: Scan): string
    requires Ordered(s, scan)
  {
    s[scan.integerStart..scan.integerEnd] + s[scan.fractionStart..scan.fractionEnd]
  }

  // The coefficient cut from the lexeme is the significant stretch of the digits.
  lemma CoefficientDigits(s: string, scan: Scan, first: int, last: int)
    requires Ordered(s, scan) && FirstAt(s, scan, first) && LastAt(s, scan, last)
    ensures var ds := SpanDigits(s, scan);
            && 0 <= first <= last < |s| && 0 <= At(scan, first) <= At(scan, last) < |ds|
            && AllZero(ds, 0, At(scan, first)) && AllZero(ds, At(scan, last) + 1, |ds|)
            && ds[At(scan, first)] != '0' && ds[At(scan, last)] != '0'
            && Coefficient(s, scan, first, last) == ds[At(scan, first)..At(scan, last) + 1]
            && |Coefficient(s, scan, first, last)| == DigitSpanLength(first, last, scan.integerEnd, scan.fractionStart)
  {
    var ds, n := SpanDigits(s, scan), scan.integerEnd - scan.integerStart;
    assert forall k :: 0 <= k < |ds| ==>
      ds[k] == if k < n then s[scan.integerStart + k] else s[scan.fractionStart + (k - n)];
    SpanOrder(s, scan, first, last);
    assert ds[At(scan, first)] == s[first] && ds[At(scan, last)] == s[last];
    CutSpans(s, scan, first, last);
  }

  lemma CutSpans(s: string, scan: Scan, first: int, last: int)
    requires Ordered(s, scan) && 0 <= first <= last < |s|
    requires scan.integerStart <= first < scan.integerEnd || scan.fractionStart <= first < scan.fractionEnd
    requires scan.integerStart <= last < scan.integerEnd || scan.fractionStart <= last < scan.fractionEnd
    ensures 0 <= At(scan, first) <= At(scan, last) < |SpanDigits(s, scan)|
    ensures Coefficient(s, scan, first, last) == SpanDigits(s, scan)[At(scan, first)..At(scan, last) + 1]
  {
    var whole, fraction := s[scan.integerStart..scan.integerEnd], s[scan.fractionStart..scan.fractionEnd];
    var from, to := At(scan, first), At(scan, last) + 1;
    ConcatSlice(whole, fraction, from, to);
    if last < scan.integerEnd {
      SliceOfSlice(s, scan.integerStart, scan.integerEnd, from, to);
    } else if scan.integerEnd <= first {
      SliceOfSlice(s, scan.fractionStart, scan.fractionEnd, from - |whole|, to - |whole|);
    } else {
      SliceOfSlice(s, scan.integerStart, scan.integerEnd, from, |whole|);
      SliceOfSlice(s, scan.fractionStart, scan.fractionEnd, 0, to - |whole|);
    }
  }

  lemma ConcatSlice(a: string, b: string, from: nat, to: nat)
    requires from <= to <= |a| + |b|
    ensures (a + b)[from..to] == if to <= |a| then a[from..to]
                                 else if |a| <= from then b[from - |a|..to - |a|]
                                 else a[from..|a|] + b[0..to - |a|]
  {
  }

  lemma SliceOfSlice(s: string, a: nat, b: nat, from: int, to: int)
    requires a <= b <= |s|
    ensures 0 <= from <= to <= b - a ==> s[a..b][from..to] == s[a + from..a + to]
  {
    if 0 <= from <= to <= b - a {
      var left, right := s[a..b][from..to], s[a + from..a + to];
      forall k | 0 <= k < to - from
        ensures left[k] == right[k]
      {
        assert s[a..b][from + k] == s[a + (from + k)];
      }
      assert left == right;
    }
  }

  lemma SpanOrder(s: string, scan: Scan, first: int, last: int)
    requires Ordered(s, scan) && FirstAt(s, scan, first) && LastAt(s, scan, last)
    ensures 0 <= first <= last < |s|
  {
  }

  // ---------------------------------------------------------------- the whole parser

  // The lexeme is a JSON number, with an exponent in range, of exactly the value of d.
  ghost predicate Writes(lexeme: string, d: Decimal) {
    Digits(d.coefficient) &&
    exists p :: ValidParts(p) && Text(p) == lexeme && Fits(ExponentOf(p)) && PartsValue(p) == Value(d)
  }

  // Parsing accepts a lexeme exactly when a canonical decimal has the value it writes,
  // and returns that decimal, the only one.
  method ParseDecimal(lexeme: string) returns (out: Result<Decimal, DecimalError>)
    ensures out.Ok? ==> 1 <= |lexeme| <= MAX_LEXEME_BYTES && Canonical(out.value) && Writes(lexeme, out.value)
    ensures 1 <= |lexeme| <= MAX_LEXEME_BYTES ==> forall d :: Canonical(d) && Writes(lexeme, d) ==> out == Ok(d)
  {
    hide Value, PartsValue, Text, ExponentOf, Digits, Canonical, Normal, Writes, NoNumber, ScanOf;
    if |lexeme| == 0 || MAX_LEXEME_BYTES < |lexeme| {
      return Err(LexemeLength);
    }
    var scan, p := ScanNumber(lexeme);
    if scan.Err? {
      NothingWritten(lexeme);
      return Err(scan.error);
    }
    ghost var normal;
    out, normal := Normalize(lexeme, scan.value, p);
    WrittenBy(lexeme, scan.value, p, normal);
    forall d | Canonical(d) && Writes(lexeme, d)
      ensures out == Ok(d)
    {
      OneWritten(lexeme, scan.value, p, normal, d);
    }
  }

  lemma NothingWritten(lexeme: string)
    requires NoNumber(lexeme)
    ensures forall d :: !Writes(lexeme, d)
  {
    hide Value, PartsValue, Text, ExponentOf, Digits;
  }

  lemma WrittenBy(lexeme: string, scan: Scan, p: Parts, d: Decimal)
    requires ScanOf(lexeme, scan, p) && Digits(d.coefficient) && Value(d) == PartsValue(p)
    ensures Writes(lexeme, d)
  {
    hide Value, PartsValue, Text, ExponentOf, Digits;
  }

  lemma OneWritten(lexeme: string, scan: Scan, p: Parts, normal: Decimal, d: Decimal)
    requires ScanOf(lexeme, scan, p) && Normal(normal) && Digits(normal.coefficient) && Value(normal) == PartsValue(p)
    requires Canonical(d) && Writes(lexeme, d)
    ensures d == normal
  {
    hide Value, PartsValue, Text, ExponentOf, Digits;
    var q :| ValidParts(q) && Text(q) == lexeme && Fits(ExponentOf(q)) && PartsValue(q) == Value(d);
    Unambiguous(p, q);
    NormalUnique(normal, d);
  }

  // A lexeme writes at most one canonical decimal.
  lemma SameWritten(lexeme: string, d: Decimal, e: Decimal)
    requires Canonical(d) && Canonical(e) && Writes(lexeme, d) && Writes(lexeme, e)
    ensures d == e
  {
    hide Value, PartsValue, Text, ExponentOf, Digits;
    var p :| ValidParts(p) && Text(p) == lexeme && Fits(ExponentOf(p)) && PartsValue(p) == Value(d);
    var q :| ValidParts(q) && Text(q) == lexeme && Fits(ExponentOf(q)) && PartsValue(q) == Value(e);
    Unambiguous(p, q);
    NormalUnique(d, e);
  }

  // -------------------------------------------------------------------- round trip

  function DigitChar(n: nat): (c: char)
    requires n < 10
    ensures Digit(c) && DigitValue(c) == n
  {
    '0' + n as char
  }

  // The decimal text of a whole number.
  function WholeText(n: nat): (s: string)
    ensures s != "" && Digits(s) && Whole(s) == n
  {
    if n < 10 then [DigitChar(n)]
    else
      var front, last := WholeText(n / 10), [DigitChar(n % 10)];
      assert (front + last)[..|front|] == front;
      front + last
  }

  // The canonical text of a decimal (appendString).
  function Print(d: Decimal): string {
    if IsZero(d) then "0"
    else (if d.negative then "-" else "") + d.coefficient + ExponentSuffix(d.exponent)
  }

  function ExponentSuffix(e: int): string {
    if e == 0 then "" else if e < 0 then "e-" + WholeText(-e) else "e" + WholeText(e)
  }

  function PrintedExponent(e: int): Option<Exponent> {
    if e == 0 then None else Some(Exponent('e', if e < 0 then "-" else "", WholeText(if e < 0 then -e else e)))
  }

  lemma PrintedParts(d: Decimal)
    requires Normal(d)
    ensures var p := Parts(d.negative, d.coefficient, None, PrintedExponent(d.exponent));
            ValidParts(p) && Text(p) == Print(d) && ExponentOf(p) == d.exponent && FractionDigits(p) == ""
  {
    hide Whole, WholeText;
    var e := PrintedExponent(d.exponent);
    WholeTextFacts(if d.exponent < 0 then -d.exponent else d.exponent);
    assert ExponentText(e) == ExponentSuffix(d.exponent);
    assert d.coefficient + "" == d.coefficient;
  }

  lemma WholeTextFacts(n: nat)
    ensures WholeText(n) != "" && Digits(WholeText(n)) && Whole(WholeText(n)) == n
  {
  }

  lemma PrintedWrites(d: Decimal)
    requires Canonical(d)
    ensures Writes(Print(d), d)
  {
    hide Text, Print, Number, Pow10, ExponentOf, Scale;
    PrintedParts(d);
    var p := Parts(d.negative, d.coefficient, None, PrintedExponent(d.exponent));
    ExponentInRange(p);
    assert d.coefficient + "" == d.coefficient;
    assert PartsValue(p) == Value(d);
  }

  lemma ExponentInRange(p: Parts)
    requires ValidParts(p) && -MAX_EXPONENT <= ExponentOf(p) <= MAX_EXPONENT
    ensures Fits(ExponentOf(p))
  {
  }

  lemma {:induction false} WholeTextLength(n: nat, k: nat)
    requires n < TenTo(k) && 1 <= k
    ensures |WholeText(n)| <= k
    decreases k
  {
    if 10 <= n {
      WholeTextLength(n / 10, k - 1);
    }
  }

  function TenTo(k: nat): nat {
    if k == 0 then 1 else 10 * TenTo(k - 1)
  }

  lemma PrintedLength(d: Decimal)
    requires Canonical(d)
    ensures 1 <= |Print(d)| <= MAX_LEXEME_BYTES
  {
    hide WholeText;
    assert TenTo(3) == 1000;
    assert TenTo(6) == 1000000;
    WholeTextLength(if d.exponent < 0 then -d.exponent else d.exponent, 6);
  }

  // Printing a canonical decimal and parsing the text gives the decimal back.
  method ParsePrinted(d: Decimal) returns (out: Result<Decimal, DecimalError>)
    requires Canonical(d)
    ensures out == Ok(d)
  {
    hide Writes, Print, Canonical;
    PrintedLength(d);
    PrintedWrites(d);
    out := ParseDecimal(Print(d));
  }
}
