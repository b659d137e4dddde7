/**
 Conversion between decimal strings and big integers with an implied number of decimals.
 Strings are made of digits and dots; signs, exponents and other number formats are not modelled.
 */
module BNConverter {

  datatype Error = NonNumeric | TooManyDecimals

  datatype Result = Ok(value: nat) | Err(error: Error)

  predicate IsDigit(c: char) { '0' <= c <= '9' }

  predicate Digits(s: string) { forall i | 0 <= i < |s| :: IsDigit(s[i]) }

  predicate DigitsAndDots(s: string) { forall i | 0 <= i < |s| :: IsDigit(s[i]) || s[i] == '.' }

  function Pow10(k: nat): (p: nat)
    ensures p > 0
  {
    if k == 0 then 1 else 10 * Pow10(k - 1)
  }

  /** The number a digit string stands for. */
  function ParseNat(s: string): nat
    requires Digits(s)
  {
    if s == "" then 0
    else
      10 * ParseNat(s[..|s| - 1]) + (s[|s| - 1] - '0') as nat
  }

  function Zeros(k: nat): (s: string)
    ensures |s| == k && Digits(s)
  {
    if k == 0 then "" else Zeros(k - 1) + "0"
  }

  /** The canonical digits of a number. */
  function ToDigits(n: nat): (s: string)
    ensures Digits(s) && s != "" && ParseNat(s) == n
  {
    var last := [('0' as int + n % 10) as char];
    if n < 10 then last
    else
      var s := ToDigits(n / 10) + last;
      assert s[..|s| - 1] == ToDigits(n / 10);
      s
  }

  /** The parts between the dots. */
  function Split(s: string): (parts: seq<string>)
    ensures |parts| >= 1
  {
    if s == "" then [""]
    else
      var rest := Split(s[1..]);
      if s[0] == '.' then [""] + rest else [[s[0]] + rest[0]] + rest[1..]
  }

  function IntPart(s: string): string { Split(s)[0] }

  function FractionPart(s: string): string { if |Split(s)| > 1 then Split(s)[1] else "" }

  /** At most one dot, and at least one digit. */
  predicate IsPlain(s: string) {
    DigitsAndDots(s) && |Split(s)| <= 2 && |IntPart(s)| + |FractionPart(s)| > 0
  }

  lemma {:induction false} SplitDigits(s: string)
    requires DigitsAndDots(s)
    ensures forall k | 0 <= k < |Split(s)| :: Digits(Split(s)[k])
  {
    if s != "" {
      SplitDigits(s[1..]);
    }
  }

  lemma PartDigits(s: string)
    requires DigitsAndDots(s)
    ensures Digits(IntPart(s)) && Digits(FractionPart(s))
  {
    SplitDigits(s);
  }

  /** The number a plain decimal string stands for. */
  function Value(s: string): real
    requires IsPlain(s)
  {
    PartDigits(s);
    ParseNat(IntPart(s)) as real + ParseNat(FractionPart(s)) as real / Pow10(|FractionPart(s)|) as real
  }

  function MakeBN(num: string, precision: nat): Result
    requires DigitsAndDots(num)
  {
    if !IsPlain(num) then Err(NonNumeric)
    else if |FractionPart(num)| > precision then Err(TooManyDecimals)
    else
      PartDigits(num);
      Ok(ParseNat(IntPart(num) + FractionPart(num) + Zeros(precision - |FractionPart(num)|)))
  }

  /** The decimal text of an integer with an implied number of decimals. */
  function MakeDecimal(num: nat, digits: nat): string {
    var s := ToDigits(num);
    if |s| <= digits then "0." + Zeros(digits - |s|) + s
    // slice(-digits): all of the string when digits is zero
    else s[..|s| - digits] + "." + (if digits == 0 then s else s[|s| - digits..])
  }

  // ---- Digit strings ----

  lemma TenTimes(x: nat, y: nat)
    ensures x * (10 * y) == 10 * (x * y)
  {
  }

  lemma {:induction false} ParseAppend(a: string, b: string)
    requires Digits(a) && Digits(b)
    ensures Digits(a + b) && ParseNat(a + b) == ParseNat(a) * Pow10(|b|) + ParseNat(b)
    decreases |b|
  {
    if b == "" {
      assert a + b == a;
    } else {
      var init := b[..|b| - 1];
      ParseAppend(a, init);
      assert (a + b)[..|a + b| - 1] == a + init;
      assert Pow10(|b|) == 10 * Pow10(|init|);
      TenTimes(ParseNat(a), Pow10(|init|));
      hide Pow10;
    }
  }

  lemma {:induction false} ParseZeros(k: nat)
    ensures ParseNat(Zeros(k)) == 0
  {
    if k > 0 {
      ParseZeros(k - 1);
      assert Zeros(k)[..k - 1] == Zeros(k - 1);
    }
  }

  lemma {:induction false} Pow10Add(a: nat, b: nat)
    ensures Pow10(a + b) == Pow10(a) * Pow10(b)
  {
    if a > 0 {
      Pow10Add(a - 1, b);
    }
  }

  lemma {:induction false} ParseBelow(s: string)
    requires Digits(s)
    ensures ParseNat(s) < Pow10(|s|)
  {
    if s != "" {
      ParseBelow(s[..|s| - 1]);
    }
  }

  lemma {:induction false} SplitNoDot(s: string)
    requires Digits(s)
    ensures Split(s) == [s]
  {
    if s != "" {
      SplitNoDot(s[1..]);
      assert [s[0]] + s[1..] == s;
    }
  }

  /** One dot splits a string into its two digit parts. */
  lemma {:induction false} SplitOneDot(a: string, b: string)
    requires Digits(a) && Digits(b)
    ensures Split(a + "." + b) == [a, b] && DigitsAndDots(a + "." + b)
  {
    var s := a + "." + b;
    if a == "" {
      assert s[1..] == b;
      SplitNoDot(b);
    } else {
      SplitOneDot(a[1..], b);
      assert s[1..] == a[1..] + "." + b;
      assert [a[0]] + a[1..] == a;
    }
  }

  /** The parts with the dots between them are the string. */
  lemma {:induction false} SplitJoins(s: string)
    ensures |Split(s)| == 1 ==> s == Split(s)[0]
    ensures |Split(s)| == 2 ==> s == Split(s)[0] + "." + Split(s)[1]
  {
    if s != "" {
      SplitJoins(s[1..]);
      var rest := Split(s[1..]);
      assert s == [s[0]] + s[1..];
      if s[0] == '.' {
        assert [""] + rest == Split(s);
        assert "" + "." == ".";
      } else if |rest| == 2 {
        assert [s[0]] + (rest[0] + "." + rest[1]) == ([s[0]] + rest[0]) + "." + rest[1];
      }
    }
  }

  /** A number is digits, or digits on either side of one dot, with at least one digit. */
  ghost predicate Reads(s: string, i: string, f: string) {
    Digits(i) && Digits(f) && i + f != "" && (s == i + "." + f || (s == i && f == ""))
  }

  /** Exactly these strings are numbers, and this is what they stand for. */
  lemma PlainExactly(s: string)
    ensures IsPlain(s) <==> exists i, f :: Reads(s, i, f)
    ensures forall i, f | Reads(s, i, f) ::
              IsPlain(s) && Value(s) == ParseNat(i) as real + ParseNat(f) as real / Pow10(|f|) as real
  {
    hide ParseNat, Pow10;
    if IsPlain(s) {
      SplitJoins(s);
      PartDigits(s);
      assert Reads(s, IntPart(s), FractionPart(s));
    }
    forall i, f | Reads(s, i, f)
      ensures IsPlain(s) && Value(s) == ParseNat(i) as real + ParseNat(f) as real / Pow10(|f|) as real
    {
      ReadsPlain(s, i, f);
    }
  }

  lemma ReadsPlain(s: string, i: string, f: string)
    requires Reads(s, i, f)
    ensures IsPlain(s) && Value(s) == ParseNat(i) as real + ParseNat(f) as real / Pow10(|f|) as real
  {
    if s == i + "." + f {
      SplitOneDot(i, f);
    } else {
      SplitNoDot(i);
    }
    hide ParseNat, Pow10, Digits;
  }

  // ---- Both conversions ----

  lemma ScaledFraction(i: nat, f: nat, p: nat, q: nat, n: nat)
    requires p > 0 && n == (i * p + f) * q
    ensures n as real == (i as real + f as real / p as real) * (p * q) as real
  {
    var x := f as real / p as real;
    assert x * p as real == f as real;
    assert (p * q) as real == p as real * q as real;
    assert n as real == (i as real * p as real + f as real) * q as real by {
      assert (i * p) as real == i as real * p as real;
    }
  }

  /** The integer is the value scaled by the precision; extra decimals and malformed strings are errors. */
  lemma MakeBNExact(num: string, precision: nat)
    requires DigitsAndDots(num)
    ensures MakeBN(num, precision).Ok? <==> IsPlain(num) && |FractionPart(num)| <= precision
    ensures MakeBN(num, precision).Ok? ==> MakeBN(num, precision).value as real == Value(num) * Pow10(precision) as real
    ensures MakeBN(num, precision) == Err(NonNumeric) <==> !IsPlain(num)
  {
    hide Pow10, ParseNat, Zeros, Split, IntPart, FractionPart;
    if IsPlain(num) && |FractionPart(num)| <= precision {
      PartDigits(num);
      var i, f := IntPart(num), FractionPart(num);
      var k := precision - |f|;
      ParseAppend(i, f);
      ParseAppend(i + f, Zeros(k));
      ParseZeros(k);
      Pow10Add(|f|, k);
      ScaledFraction(ParseNat(i), ParseNat(f), Pow10(|f|), Pow10(k), MakeBN(num, precision).value);
    }
  }

  /** The text as an integer part and a fraction part, which read together give the number. */
  lemma MakeDecimalSplits(num: nat, digits: nat) returns (i: string, f: string)
    requires digits > 0
    ensures MakeDecimal(num, digits) == i + "." + f && Digits(i) && Digits(f) && i != "" && |f| == digits
    ensures ParseNat(i + f) == num
  {
    hide Pow10, ParseNat, ToDigits, Zeros, Digits;
    var s := ToDigits(num);
    if |s| <= digits {
      i, f := "0", Zeros(digits - |s|) + s;
      Padded(digits - |s|, s);
    } else {
      i, f := s[..|s| - digits], s[|s| - digits..];
      PartsAreDigits(i, f);
      assert s == i + f;
    }
  }

  lemma PartsAreDigits(a: string, b: string)
    ensures Digits(a + b) ==> Digits(a) && Digits(b)
  {
    assert forall k | 0 <= k < |b| :: (a + b)[|a| + k] == b[k];
    assert forall k | 0 <= k < |a| :: (a + b)[k] == a[k];
  }

  /** Leading zeros do not change a number. */
  lemma Padded(k: nat, s: string)
    requires Digits(s)
    ensures Digits("0") && Digits(Zeros(k) + s) && ParseNat("0" + (Zeros(k) + s)) == ParseNat(s)
  {
    hide ParseNat, Pow10, Zeros;
    ZerosFirst(k);
    ParseZeros(k + 1);
    ParseAppend(Zeros(k + 1), s);
    assert "0" + (Zeros(k) + s) == Zeros(k + 1) + s;
  }

  lemma {:induction false} ZerosFirst(k: nat)
    ensures "0" + Zeros(k) == Zeros(k + 1)
  {
    if k > 0 {
      ZerosFirst(k - 1);
      assert "0" + (Zeros(k - 1) + "0") == ("0" + Zeros(k - 1)) + "0";
    }
  }

  lemma MakeDecimalParts(num: nat, digits: nat)
    requires digits > 0
    ensures var s := MakeDecimal(num, digits);
            IsPlain(s) && DigitsAndDots(s) && |FractionPart(s)| == digits
            && Digits(IntPart(s) + FractionPart(s)) && ParseNat(IntPart(s) + FractionPart(s)) == num
  {
    hide ParseNat, Pow10, MakeDecimal, Zeros, ToDigits;
    var i, f := MakeDecimalSplits(num, digits);
    SplitOneDot(i, f);
  }

  /** Text and integer are inverse: the text parses back to the integer. */
  lemma IntegerRoundTrip(num: nat, digits: nat)
    requires digits > 0
    ensures MakeBN(MakeDecimal(num, digits), digits) == Ok(num)
  {
    var s := MakeDecimal(num, digits);
    MakeDecimalParts(num, digits);
    assert Zeros(0) == "";
    assert IntPart(s) + FractionPart(s) + Zeros(0) == IntPart(s) + FractionPart(s);
  }

  lemma Unscale(x: real, y: real, p: real)
    requires p > 0.0 && x * p == y * p
    ensures x == y
  {
  }

  lemma MakeDecimalValue(num: nat, digits: nat)
    requires digits > 0
    ensures IsPlain(MakeDecimal(num, digits)) && Value(MakeDecimal(num, digits)) * Pow10(digits) as real == num as real
  {
    hide *;
    var s := MakeDecimal(num, digits);
    MakeDecimalParts(num, digits);
    IntegerRoundTrip(num, digits);
    MakeBNExact(s, digits);
  }

  lemma PlainIsDigitsAndDots(s: string)
    requires IsPlain(s)
    ensures DigitsAndDots(s)
  {
  }

  /** Every plain decimal string that fits the precision keeps its value through both conversions. */
  lemma ValueRoundTrip(num: string, precision: nat)
    requires IsPlain(num) && 0 < precision && |FractionPart(num)| <= precision
    ensures MakeBN(num, precision).Ok?
    ensures IsPlain(MakeDecimal(MakeBN(num, precision).value, precision))
    ensures Value(MakeDecimal(MakeBN(num, precision).value, precision)) == Value(num)
  {
    hide Pow10, ParseNat, Zeros, Split, MakeDecimal, MakeBN, IsPlain, IntPart, FractionPart, Value;
    PlainIsDigitsAndDots(num);
    MakeBNExact(num, precision);
    var n := MakeBN(num, precision).value;
    MakeDecimalValue(n, precision);
    var x, y, p := Value(MakeDecimal(n, precision)), Value(num), Pow10(precision) as real;
    assert x * p == n as real && n as real == y * p;
    Unscale(x, y, p);
  }

  lemma Repeated(x: real, p: real, y: real)
    requires p > 0.0 && y == x + x / p
    ensures y == x <==> x == 0.0
  {
    var q := x / p;
    assert q * p == x;
  }

  lemma RepeatedText(num: nat)
    ensures var s := MakeDecimal(num, 0);
            IsPlain(s) && IntPart(s) == FractionPart(s) == ToDigits(num)
  {
    hide ToDigits;
    var s := ToDigits(num);
    SplitOneDot(s, s);
    assert MakeDecimal(num, 0) == s + "." + s;
  }

  /** Without decimals the text repeats the digits behind the dot, so only zero keeps its value. */
  lemma NoDecimals(num: nat)
    ensures IsPlain(MakeDecimal(num, 0))
    ensures Value(MakeDecimal(num, 0)) == num as real <==> num == 0
  {
    hide ToDigits, ParseNat, Pow10, Split, MakeDecimal, IsPlain, IntPart, FractionPart;
    RepeatedText(num);
    var s := ToDigits(num);
    Repeated(num as real, Pow10(|s|) as real, Value(MakeDecimal(num, 0)));
  }

  /** A text with `digits` decimals keeps the value exactly when there are decimals, or nothing to repeat. */
  lemma DecimalExact(num: nat, digits: nat)
    ensures IsPlain(MakeDecimal(num, digits))
    ensures Value(MakeDecimal(num, digits)) * Pow10(digits) as real == num as real <==> digits > 0 || num == 0
  {
    hide MakeDecimal, IsPlain, Value;
    if digits > 0 {
      MakeDecimalValue(num, digits);
    } else {
      NoDecimals(num);
    }
  }
}
