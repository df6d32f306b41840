// Reading back an unsigned number from its canonical decimal text
// (decodeCanonicalUint64 in internal/actionapproval/types.go).
module UintText {
  import opened Wrappers
  import opened Decimal
  import opened DecimalOrder
  import opened DecimalSyntax
  import DecimalParse

  const MAX_UINT64 := 0xffff_ffff_ffff_ffff

  function MarkerIndex(s: string): (k: nat)
    ensures k <= |s| && (k < |s| ==> s[k] == 'e' || s[k] == 'E')
    ensures forall i :: 0 <= i < k ==> s[i] != 'e' && s[i] != 'E'
  {
    if s == "" || s[0] == 'e' || s[0] == 'E' then 0 else 1 + MarkerIndex(s[1..])
  }

  // A whole number with an optional sign.
  function Atoi(s: string): Option<int> {
    var digits := if s != "" && (s[0] == '-' || s[0] == '+') then s[1..] else s;
    if digits == "" || !Digits(digits) then None
    else Some(if s[0] == '-' then -(Whole(digits) as int) else Whole(digits))
  }

  // Reading a text that is already free of surrounding space.
  function DecodeUint64(value: string): Option<nat> {
    if value == "" || value[0] == '-' then None
    else
      var k := MarkerIndex(value);
      var exponent := if k == |value| then Some(0) else Atoi(value[k + 1..]);
      var mantissa := value[..k];
      if exponent.None? || exponent.value < 0 || mantissa == "" || !Digits(mantissa) || 20 < exponent.value then None
      else
        var n := Whole(mantissa + Zeros(exponent.value));
        if MAX_UINT64 < n then None else Some(n)
  }

  lemma {:induction false} WholeIsNumber(s: string)
    requires Digits(s)
    ensures Number(s) == Whole(s) as real
    decreases |s|
  {
    if s != "" {
      WholeIsNumber(s[..|s| - 1]);
    }
  }

  // A coefficient that does not end in 0 needs no negative exponent to be whole.
  lemma WholeExponent(d: Decimal, n: nat)
    requires Normal(d) && !IsZero(d) && Value(d) == n as real
    ensures !d.negative && 0 <= d.exponent
  {
    hide Pow10, Number;
    SignFacts(d);
    if d.exponent < 0 {
      var e := -d.exponent;
      PowAdd(d.exponent, e);
      PowZero();
      MulAssoc(Number(d.coefficient), Pow10(d.exponent), Pow10(e));
      assert Number(d.coefficient) == n as real * Pow10(e);
      TenDivides(d.coefficient, n, e);
    }
  }

  lemma TenDivides(s: string, n: nat, e: nat)
    requires Digits(s) && s != "" && 0 < e && Number(s) == n as real * Pow10(e)
    ensures s[|s| - 1] == '0'
  {
    hide Pow10, Number;
    hide IntPow;
    WholeIsNumber(s);
    WholePower(e);
    RealProduct(n, IntPow(e));
    assert Whole(s) == n * IntPow(e);
    PowSplit(n, e);
    LastDigit(n * IntPow(e - 1), Whole(s[..|s| - 1]), DigitValue(s[|s| - 1]));
  }

  lemma RealProduct(a: nat, b: nat)
    ensures (a * b) as real == a as real * b as real
  {
  }

  lemma PowSplit(n: nat, e: nat)
    requires 0 < e
    ensures n * IntPow(e) == (n * IntPow(e - 1)) * 10
  {
  }

  lemma LastDigit(a: nat, b: nat, d: nat)
    requires a * 10 == b * 10 + d && d < 10
    ensures d == 0
  {
  }

  function IntPow(e: nat): nat {
    if e == 0 then 1 else IntPow(e - 1) * 10
  }

  lemma {:induction false} WholePower(e: nat)
    ensures Pow10(e) == IntPow(e) as real && 1 <= IntPow(e)
  {
    if 0 < e {
      WholePower(e - 1);
    }
  }

  lemma {:induction false} WholeZeros(s: string, k: nat)
    requires Digits(s)
    ensures Whole(s + Zeros(k)) == Whole(s) * IntPow(k)
  {
    if k == 0 {
      assert s + "" == s;
    } else {
      WholeZeros(s, k - 1);
      assert (s + Zeros(k))[..|s| + k - 1] == s + Zeros(k - 1);
      assert Whole(s) * (IntPow(k - 1) * 10) == (Whole(s) * IntPow(k - 1)) * 10;
    }
  }

  lemma MarkerAfterDigits(digits: string, rest: string)
    requires Digits(digits) && (rest == "" || rest[0] == 'e')
    ensures MarkerIndex(digits + rest) == |digits|
  {
    var k, s := MarkerIndex(digits + rest), digits + rest;
    assert forall i :: 0 <= i < |digits| ==> s[i] == digits[i];
    assert rest != "" ==> s[|digits|] == rest[0];
  }

  lemma {:induction false} PowGrows(a: nat, b: nat)
    requires a <= b
    ensures IntPow(a) <= IntPow(b)
    decreases b
  {
    if a < b {
      PowGrows(a, b - 1);
      WholePower(b - 1);
    }
  }

  lemma ExponentSmall(w: nat, e: nat, n: nat)
    requires 1 <= w && n == w * IntPow(e) && n <= MAX_UINT64
    ensures e <= 20
  {
    hide IntPow;
    AtLeastFactor(w, IntPow(e));
    if 20 < e {
      PowGrows(20, e);
      TwentyDigits();
    }
  }

  lemma AtLeastFactor(w: nat, p: nat)
    requires 1 <= w
    ensures p <= w * p
  {
  }

  lemma TwentyDigits()
    ensures MAX_UINT64 < IntPow(20)
  {
    assert IntPow(5) == 100000;
    assert IntPow(10) == 10000000000;
    assert IntPow(15) == 1000000000000000;
    assert IntPow(20) == 100000000000000000000;
  }

  // A whole canonical number is its coefficient with as many zeros as its exponent says.
  lemma WholeValue(d: Decimal, n: nat)
    requires Normal(d) && !IsZero(d) && Value(d) == n as real
    ensures !d.negative && 0 <= d.exponent
    ensures n == Whole(d.coefficient) * IntPow(d.exponent) && 1 <= Whole(d.coefficient)
  {
    hide Number, Pow10;
    WholeExponent(d, n);
    WholeIsNumber(d.coefficient);
    WholePower(d.exponent);
    SignFacts(d);
    assert (Whole(d.coefficient) * IntPow(d.exponent)) as real == n as real;
    assert Whole(d.coefficient) == 0 ==> n == 0;
  }

  // Every uint64 is read back from its canonical decimal text.
  lemma DecodesPrinted(d: Decimal, n: nat)
    requires Canonical(d) && Digits(d.coefficient) && Value(d) == n as real && n <= MAX_UINT64
    ensures DecodeUint64(DecimalParse.Print(d)) == Some(n)
  {
    hide Number, Pow10, Whole, Value;
    if IsZero(d) {
      ZeroMagnitude(d);
      ZeroDecodes();
    } else {
      WholeValue(d, n);
      ExponentSmall(Whole(d.coefficient), d.exponent, n);
      WholeZeros(d.coefficient, d.exponent);
      DecimalParse.WholeTextFacts(d.exponent);
      PartsDecode(d.coefficient, d.exponent, DecimalParse.ExponentSuffix(d.exponent));
    }
  }

  lemma ZeroDecodes()
    ensures DecodeUint64("0") == Some(0)
  {
    assert MarkerIndex("0") == 1 && "0"[..1] == "0" && "0" + "" == "0";
  }

  lemma PartsDecode(coefficient: string, e: nat, suffix: string)
    requires Digits(coefficient) && coefficient != "" && e <= 20
    requires suffix == if e == 0 then "" else "e" + DecimalParse.WholeText(e)
    requires Digits(DecimalParse.WholeText(e)) && Whole(DecimalParse.WholeText(e)) == e
    requires DecimalParse.WholeText(e) != ""
    requires Whole(coefficient + Zeros(e)) <= MAX_UINT64
    ensures DecodeUint64("" + coefficient + suffix) == Some(Whole(coefficient + Zeros(e)))
  {
    hide Whole, DecimalParse.WholeText;
    var value := coefficient + suffix;
    assert "" + coefficient + suffix == value;
    MarkerAfterDigits(coefficient, suffix);
    assert value[..|coefficient|] == coefficient;
    if e != 0 {
      assert value[|coefficient| + 1..] == DecimalParse.WholeText(e);
    }
    assert value[0] == coefficient[0];
  }
}
