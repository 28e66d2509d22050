/**
  Declared prices: the text that is accepted, its exact value in millionths, and
  the canonical text that is stored and re-checked when observations are exported.
 */
module Prices {
  import opened Wrappers
  import opened Decimals

  const SCALE: nat := 1_000_000

  datatype PriceError = Malformed | NotPositive

  /** `^\d{1,12}(?:\.\d{1,6})?$`, split at the point. */
  function Split(text: string): (string, Option<string>) {
    if |text| == 0 then ("", None)
    else if text[0] == '.' then ("", Some(text[1..]))
    else var (whole, fraction) := Split(text[1..]); ([text[0]] + whole, fraction)
  }

  predicate Accepted(text: string) {
    var (whole, fraction) := Split(text);
    && 1 <= |whole| <= 12 && Digits(whole)
    && (fraction.Some? ==> 1 <= |fraction.value| <= 6 && Digits(fraction.value))
  }

  function Fraction(digits: string): nat
    requires Digits(digits) && |digits| <= 6
  {
    Number(digits) * Pow10(6 - |digits|)
  }

  /** The exact value of an accepted text, in millionths. */
  function Millionths(text: string): nat
    requires Accepted(text)
  {
    var (whole, fraction) := Split(text);
    Number(whole) * SCALE + if fraction.Some? then Fraction(fraction.value) else 0
  }

  function StripZeros(digits: string): (r: string)
    requires Digits(digits)
    ensures Digits(r) && |r| <= |digits|
  {
    if digits != "" && digits[|digits| - 1] == '0' then StripZeros(digits[..|digits| - 1]) else digits
  }

  /** Fixed-point text without an exponent, a trailing zero or a trailing point. */
  function Format(millionths: nat): string {
    var fraction := StripZeros(Padded(millionths % SCALE, 6));
    Decimal(millionths / SCALE) + if fraction == "" then "" else "." + fraction
  }

  /** `_price_amount`. */
  function PriceAmount(text: string): Result<string, PriceError> {
    if !Accepted(text) then Err(Malformed)
    else if Millionths(text) == 0 then Err(NotPositive)
    else Ok(Format(Millionths(text)))
  }

  // ---- The canonical text has the value it was made from -----------------------------

  lemma {:induction false} SplitAt(whole: string, fraction: string)
    requires Digits(whole)
    ensures Split(whole + "." + fraction) == (whole, Some(fraction))
    ensures Split(whole) == (whole, None)
  {
    if whole == "" {
      assert "" + "." + fraction == "." + fraction;
      assert ("." + fraction)[1..] == fraction;
    } else {
      SplitAt(whole[1..], fraction);
      assert (whole + "." + fraction)[1..] == whole[1..] + "." + fraction;
      assert [whole[0]] + whole[1..] == whole;
    }
  }

  lemma {:induction false} StripKeepsValue(digits: string)
    requires Digits(digits) && |digits| <= 6
    ensures Fraction(StripZeros(digits)) == Fraction(digits)
    ensures Number(digits) > 0 ==> StripZeros(digits) != ""
    ensures StripZeros(digits) == "" ==> Fraction(digits) == 0
  {
    if digits != "" && digits[|digits| - 1] == '0' {
      var init := digits[..|digits| - 1];
      StripKeepsValue(init);
      assert Number(digits) == 10 * Number(init);
      assert Pow10(6 - |init|) == 10 * Pow10(6 - |digits|);
      Shift(Number(init), Pow10(6 - |digits|));
    }
  }

  lemma Shift(n: nat, p: nat)
    ensures (10 * n) * p == n * (10 * p)
  {
  }

  lemma SmallPowers()
    ensures Pow10(0) == 1 && Pow10(6) == SCALE && Pow10(12) == SCALE * SCALE
  {
    assert Pow10(3) == 1000;
    assert Pow10(6) == 1000 * Pow10(3);
    assert Pow10(9) == 1000 * Pow10(6);
    assert Pow10(12) == 1000 * Pow10(9);
  }

  lemma FractionText(m: nat)
    requires m < SCALE
    ensures |Padded(m, 6)| == 6 && Fraction(Padded(m, 6)) == m
  {
    SmallPowers();
    DecimalLength(m, 6);
    PadLength(Decimal(m), 6);
    DecimalValue(m);
    PadValue(Decimal(m), 6);
  }

  /** Accepted are exactly one to twelve digits, with one to six more after a point or without one. */
  lemma AcceptedIff(text: string)
    ensures Accepted(text) <==>
      || (1 <= |text| <= 12 && Digits(text))
      || exists k :: 1 <= k <= 12 && k + 1 < |text| <= k + 7 && Digits(text[..k]) && text[k] == '.' && Digits(text[k + 1..])
  {
    SplitJoins(text);
    var (whole, fraction) := Split(text);
    if Accepted(text) && fraction.Some? {
      assert text[..|whole|] == whole && text[|whole|] == '.' && text[|whole| + 1..] == fraction.value;
    }
    if 1 <= |text| <= 12 && Digits(text) { SplitAt(text, ""); }
    forall k | 1 <= k <= 12 && k + 1 < |text| <= k + 7 && Digits(text[..k]) && text[k] == '.' && Digits(text[k + 1..])
      ensures Accepted(text)
    {
      SplitAt(text[..k], text[k + 1..]);
      assert text[..k] + "." + text[k + 1..] == text;
    }
  }

  lemma {:induction false} SplitJoins(text: string)
    ensures var (whole, fraction) := Split(text);
      text == whole + (if fraction.Some? then "." + fraction.value else "")
  {
    if |text| > 0 && text[0] != '.' { SplitJoins(text[1..]); }
  }

  lemma {:induction false} StripEnds(digits: string)
    requires Digits(digits)
    ensures StripZeros(digits) != "" ==> StripZeros(digits)[|StripZeros(digits)| - 1] != '0'
  {
    if digits != "" && digits[|digits| - 1] == '0' { StripEnds(digits[..|digits| - 1]); }
  }

  lemma {:induction false} DecimalLead(n: nat)
    ensures n > 0 ==> Decimal(n)[0] != '0'
    ensures n == 0 ==> Decimal(n) == "0"
  {
    if n >= 10 { DecimalLead(n / 10); }
  }

  /** The stored text is as short as it can be: no leading zero but before a point, no zero or point at the end of a fraction. */
  lemma FormatIsShort(millionths: nat)
    ensures var text := Format(millionths);
      && text != "" && (|text| > 1 && text[0] == '0' ==> text[1] == '.')
      && ('.' in text ==> text[|text| - 1] != '0' && text[|text| - 1] != '.')
  {
    var whole, fraction := Decimal(millionths / SCALE), StripZeros(Padded(millionths % SCALE, 6));
    DecimalLead(millionths / SCALE);
    StripEnds(Padded(millionths % SCALE, 6));
    assert Digits(whole) && Digits(fraction);
    if fraction == "" {
      assert Format(millionths) == whole + "";
      assert '.' !in whole;
    } else {
      assert Format(millionths) == whole + ("." + fraction);
    }
  }

  /** Formatting and reading back is exact for every value of up to twelve whole digits. */
  lemma FormatReadsBack(millionths: nat)
    requires millionths < SCALE * SCALE * SCALE
    ensures Accepted(Format(millionths)) && Millionths(Format(millionths)) == millionths
  {
    var whole, part := millionths / SCALE, millionths % SCALE;
    SmallPowers();
    DecimalLength(whole, 12);
    DecimalValue(whole);
    FractionText(part);
    var fraction := StripZeros(Padded(part, 6));
    StripKeepsValue(Padded(part, 6));
    SplitAt(Decimal(whole), fraction);
    if fraction != "" {
      assert Decimal(whole) + ("." + fraction) == Decimal(whole) + "." + fraction;
    } else {
      assert Decimal(whole) + "" == Decimal(whole);
    }
  }

  lemma AcceptedIsBounded(text: string)
    requires Accepted(text)
    ensures Millionths(text) < SCALE * SCALE * SCALE
  {
    var (whole, fraction) := Split(text);
    SmallPowers();
    NumberBound(whole);
    PowMonotone(|whole|, 12);
    if fraction.Some? {
      NumberBound(fraction.value);
      FractionBound(Number(fraction.value), |fraction.value|);
    }
  }

  lemma {:induction false} PowMonotone(a: nat, b: nat)
    requires a <= b
    ensures Pow10(a) <= Pow10(b)
  {
    if a < b { PowMonotone(a, b - 1); }
  }

  lemma {:induction false} PowSum(a: nat, b: nat)
    ensures Pow10(a + b) == Pow10(a) * Pow10(b)
  {
    if a > 0 {
      PowSum(a - 1, b);
      assert 10 * (Pow10(a - 1) * Pow10(b)) == (10 * Pow10(a - 1)) * Pow10(b);
    }
  }

  lemma FractionBound(n: nat, k: nat)
    requires k <= 6 && n < Pow10(k)
    ensures n * Pow10(6 - k) < SCALE
  {
    SmallPowers();
    PowSum(k, 6 - k);
    var p, q := Pow10(6 - k), Pow10(k);
    PowMonotone(0, 6 - k);
    assert n * p + (q - n) * p == q * p;
    assert (q - n) * p >= 1;
  }

  /**
    Normalising keeps the value, is idempotent, and is canonical: two accepted
    positive texts get the same stored amount exactly when they denote the same
    price.
   */
  lemma PriceIsCanonical(a: string, b: string)
    requires PriceAmount(a).Ok? && PriceAmount(b).Ok?
    ensures Accepted(PriceAmount(a).value) && Millionths(PriceAmount(a).value) == Millionths(a)
    ensures PriceAmount(PriceAmount(a).value) == PriceAmount(a)
    ensures PriceAmount(a) == PriceAmount(b) <==> Millionths(a) == Millionths(b)
  {
    AcceptedIsBounded(a);
    AcceptedIsBounded(b);
    FormatReadsBack(Millionths(a));
    FormatReadsBack(Millionths(b));
  }
}
