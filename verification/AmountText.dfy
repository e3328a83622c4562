/** The printed form of an amount (`format_amount`) and the reading of plain decimal
    literals (`to_decimal`). */
module AmountText {
  import opened Rounding
  import opened Decimals
  import opened Money
  import opened Wrappers

  // ------------------------------------------------------------- digits

  predicate IsDigit(c: char) {
    '0' <= c <= '9'
  }

  function DigitChar(d: nat): (c: char)
    requires d < 10
    ensures IsDigit(c) && DigitValue(c) == d
  {
    '0' + d as char
  }

  function DigitValue(c: char): nat
    requires IsDigit(c)
  {
    (c - '0') as int
  }

  predicate AllDigits(s: string) {
    forall i :: 0 <= i < |s| ==> IsDigit(s[i])
  }

  /** The digits of `n`, without leading zeros. */
  function NatText(n: nat): (s: string)
    ensures AllDigits(s) && s != ""
  {
    if n < 10 then [DigitChar(n)] else NatText(n / 10) + [DigitChar(n % 10)]
  }

  /** The last `width` digits of `n`. */
  function LastDigits(n: nat, width: nat): (s: string)
    ensures AllDigits(s) && |s| == width
  {
    if width == 0 then "" else LastDigits(n / 10, width - 1) + [DigitChar(n % 10)]
  }

  function FromDigits(s: string): nat
    requires AllDigits(s)
  {
    if s == "" then 0 else 10 * FromDigits(s[..|s| - 1]) + DigitValue(s[|s| - 1])
  }

  lemma {:induction false} ReadNatText(n: nat)
    ensures FromDigits(NatText(n)) == n
  {
    if n >= 10 {
      ReadNatText(n / 10);
      assert NatText(n)[..|NatText(n)| - 1] == NatText(n / 10);
    }
  }

  /** `n` without its last `width` digits. */
  function DropDigits(n: nat, width: nat): nat {
    if width == 0 then n else DropDigits(n / 10, width - 1)
  }

  /** Reading what is left of `n` and then its last `width` digits gives `n`. */
  lemma {:induction false} ReadSplit(s: string, n: nat, width: nat)
    requires AllDigits(s) && FromDigits(s) == DropDigits(n, width)
    ensures AllDigits(s + LastDigits(n, width))
    ensures FromDigits(s + LastDigits(n, width)) == n
    decreases width
  {
    var text := s + LastDigits(n, width);
    if width == 0 {
      assert text == s;
    } else {
      ReadSplit(s, n / 10, width - 1);
      assert text[..|text| - 1] == s + LastDigits(n / 10, width - 1);
    }
  }

  lemma {:induction false} AppendZero(n: nat, width: nat)
    ensures LastDigits(n, width) + "0" == LastDigits(10 * n, width + 1)
  {
  }

  // --------------------------------------------------------------- texts

  /** The number m * 10^-places written with exactly `places` decimals. */
  function FixedText(negative: bool, m: nat, places: nat): string {
    Joined(negative, WholeText(m, places), LastDigits(m, places))
  }

  function Joined(negative: bool, whole: string, fraction: string): string {
    (if negative then "-" else "") + Unsigned(whole, fraction)
  }

  function Unsigned(whole: string, fraction: string): string {
    whole + (if fraction == "" then "" else "." + fraction)
  }

  /** The digits before the point. */
  function WholeText(m: nat, places: nat): (s: string)
    ensures AllDigits(s) && s != ""
  {
    NatText(DropDigits(m, places))
  }

  lemma ReadWhole(m: nat, places: nat)
    ensures AllDigits(WholeText(m, places) + LastDigits(m, places))
    ensures FromDigits(WholeText(m, places) + LastDigits(m, places)) == m
  {
    ReadNatText(DropDigits(m, places));
    ReadSplit(WholeText(m, places), m, places);
  }

  function IndexOf(s: string, c: char): (i: nat)
    ensures i <= |s| && c !in s[..i] && (i < |s| ==> s[i] == c)
  {
    if s == "" || s[0] == c then 0 else 1 + IndexOf(s[1..], c)
  }

  datatype TextError = InvalidLiteral

  function ParseUnsigned(negative: bool, body: string): Result<Decimal, TextError> {
    var i := IndexOf(body, '.');
    var fraction := if i < |body| then body[i + 1..] else "";
    var digits := body[..i] + fraction;
    if digits != "" && AllDigits(digits) then Success(Decimal(negative, FromDigits(digits), 0 - |fraction|))
    else Failure(InvalidLiteral)
  }

  /** A plain literal: an optional sign, digits, and optionally a point and digits.
      The coefficient is all the digits, the exponent counts those after the point. */
  function ParsePlain(s: string): Result<Decimal, TextError> {
    if s != "" && s[0] == '-' then ParseUnsigned(true, s[1..])
    else if s != "" && s[0] == '+' then ParseUnsigned(false, s[1..])
    else ParseUnsigned(false, s)
  }

  lemma {:induction false} IndexOfPoint(digits: string, rest: string)
    requires AllDigits(digits) && (rest == "" || rest[0] == '.')
    ensures IndexOf(digits + rest, '.') == |digits|
    decreases |digits|
  {
    if digits == "" {
      assert digits + rest == rest;
    } else {
      IndexOfPoint(digits[1..], rest);
      assert (digits + rest)[1..] == digits[1..] + rest;
    }
  }

  lemma ReadUnsigned(negative: bool, whole: string, fraction: string)
    requires AllDigits(whole) && AllDigits(fraction) && whole != ""
    ensures ParseUnsigned(negative, Unsigned(whole, fraction))
            == Success(Decimal(negative, FromDigits(whole + fraction), 0 - |fraction|))
  {
    if fraction == "" {
      ReadPlainWhole(negative, whole);
      assert whole + fraction == whole && Unsigned(whole, fraction) == whole;
    } else {
      ReadPointed(negative, whole, fraction);
      assert Unsigned(whole, fraction) == whole + "." + fraction;
    }
  }

  lemma ReadPlainWhole(negative: bool, whole: string)
    requires AllDigits(whole) && whole != ""
    ensures ParseUnsigned(negative, whole) == Success(Decimal(negative, FromDigits(whole), 0))
  {
    IndexOfPoint(whole, "");
    assert whole + "" == whole && whole[..|whole|] == whole;
  }

  lemma ReadPointed(negative: bool, whole: string, fraction: string)
    requires AllDigits(whole) && AllDigits(fraction) && whole != ""
    ensures ParseUnsigned(negative, whole + "." + fraction)
         == Success(Decimal(negative, FromDigits(whole + fraction), 0 - |fraction|))
  {
    var body := whole + "." + fraction;
    assert body == whole + ("." + fraction);
    IndexOfPoint(whole, "." + fraction);
    assert body[..|whole|] == whole && body[|whole| + 1..] == fraction;
  }

  lemma ReadSign(negative: bool, body: string)
    requires body != "" && IsDigit(body[0])
    ensures ParsePlain((if negative then "-" else "") + body) == ParseUnsigned(negative, body)
  {
    var s := (if negative then "-" else "") + body;
    if negative {
      assert s[1..] == body;
    } else {
      assert s == body;
    }
  }

  lemma ReadSigned(negative: bool, whole: string, fraction: string)
    requires AllDigits(whole) && AllDigits(fraction) && whole != ""
    ensures ParsePlain(Joined(negative, whole, fraction))
         == Success(Decimal(negative, FromDigits(whole + fraction), 0 - |fraction|))
  {
    ReadUnsigned(negative, whole, fraction);
    assert Unsigned(whole, fraction)[0] == whole[0];
    ReadSign(negative, Unsigned(whole, fraction));
  }

  /** Reading a fixed-point text gives back exactly its sign, coefficient and exponent. */
  lemma ReadFixedText(negative: bool, m: nat, places: nat)
    ensures ParsePlain(FixedText(negative, m, places)) == Success(Decimal(negative, m, 0 - places))
  {
    ReadWhole(m, places);
    ReadSigned(negative, WholeText(m, places), LastDigits(m, places));
  }

  // ------------------------------------------------------------ printing

  /** The fewest decimals that show q * 10^-scale in full. */
  function LeastPlaces(q: nat, scale: nat): (places: nat)
    ensures places <= scale
  {
    if scale > 0 && q % 10 == 0 then LeastPlaces(q / 10, scale - 1) else scale
  }

  /** q without the zeros that `LeastPlaces` leaves out. */
  function Shortened(q: nat, scale: nat): nat {
    if scale > 0 && q % 10 == 0 then Shortened(q / 10, scale - 1) else q
  }

  lemma {:induction false} ShortenedValue(q: nat, scale: nat)
    ensures q == Shortened(q, scale) * Pow10(scale - LeastPlaces(q, scale))
    ensures LeastPlaces(q, scale) > 0 ==> Shortened(q, scale) % 10 != 0
  {
    if scale > 0 && q % 10 == 0 {
      ShortenedValue(q / 10, scale - 1);
      PadStep(Shortened(q, scale), scale - 1 - LeastPlaces(q, scale));
    }
  }

  function StripZeros(s: string): string {
    if s != "" && s[|s| - 1] == '0' then StripZeros(s[..|s| - 1]) else s
  }

  /** Python's text for a quantised and normalised number: no trailing zeros, and no
      point when no decimals are left. */
  function NormalizedText(negative: bool, q: nat, scale: nat): string {
    FixedText(negative, Shortened(q, scale), LeastPlaces(q, scale))
  }

  /** What is shown: the shortest text, padded to at least `dp` decimals. */
  function DisplayText(negative: bool, q: nat, scale: nat, dp: nat): string {
    var least := LeastPlaces(q, scale);
    if least >= dp then NormalizedText(negative, q, scale)
    else FixedText(negative, Padded(Shortened(q, scale), dp - least), dp)
  }

  function DisplayScale(dp: nat): nat {
    if dp > 8 then dp else 8
  }

  lemma PadStep(m: nat, k: nat)
    ensures m * Pow10(0) == m
    ensures 0 <= m * Pow10(k) && 10 * (m * Pow10(k)) == m * Pow10(k + 1)
  {
    assert Pow10(k + 1) == 10 * Pow10(k);
    MulAssociative(m, Pow10(k), 10);
  }

  lemma {:induction false} PadNumber(m: nat, places: nat, more: nat)
    ensures DropDigits(Padded(m, more), places + more) == DropDigits(m, places)
    decreases more
  {
    PadStep(m, more);
    if more > 0 {
      PadStep(m, more - 1);
      PadNumber(m, places, more - 1);
    }
  }

  lemma {:induction false} NoTrailingZeroToStrip(s: string)
    requires s != "" && s[|s| - 1] != '0'
    ensures StripZeros(s) == s
  {
  }

  function Zeros(n: nat): string {
    if n == 0 then "" else Zeros(n - 1) + "0"
  }

  lemma {:induction false} ZerosAreLastDigits(m: nat, n: nat)
    ensures LastDigits(Padded(m, n), n) == Zeros(n)
  {
    if n > 0 {
      PadStep(m, n - 1);
      ZerosAreLastDigits(m, n - 1);
    }
  }

  /** `short` shown with `extra` more zeros. */
  function Padded(short: nat, extra: nat): nat {
    short * Pow10(extra)
  }

  lemma AppendPadding(short: nat, least: nat, extra: nat)
    ensures LastDigits(Padded(short, extra), least + extra) + "0"
            == LastDigits(Padded(short, extra + 1), least + extra + 1)
  {
    PadStep(short, extra);
    AppendZero(Padded(short, extra), least + extra);
  }

  /** The padding loop: zeros are added until there are `dp` decimals. */
  method PadFraction(short: nat, least: nat, dp: nat) returns (frac: string)
    ensures |frac| == (if least >= dp then least else dp)
    ensures frac == LastDigits(Padded(short, |frac| - least), |frac|)
  {
    frac := LastDigits(short, least);
    PadStep(short, 0);
    while |frac| < dp
      invariant least <= |frac| && (|frac| <= dp || |frac| == least)
      invariant frac == LastDigits(Padded(short, |frac| - least), |frac|)
    {
      AppendPadding(short, least, |frac| - least);
      frac := frac + "0";
    }
  }

  lemma NothingToStrip(q: nat, scale: nat)
    requires LeastPlaces(q, scale) > 0
    ensures var frac := LastDigits(Shortened(q, scale), LeastPlaces(q, scale)); StripZeros(frac) == frac
  {
    ShortenedValue(q, scale);
    var short := Shortened(q, scale);
    var frac := LastDigits(short, LeastPlaces(q, scale));
    assert frac[|frac| - 1] == DigitChar(short % 10);
    assert DigitValue('0') == 0;
    NoTrailingZeroToStrip(frac);
  }

  lemma PaddedWhole(short: nat, least: nat, extra: nat)
    ensures WholeText(Padded(short, extra), least + extra) == WholeText(short, least)
    ensures extra == 0 ==> Padded(short, extra) == short
  {
    PadStep(short, 0);
    PadNumber(short, least, extra);
  }

  lemma PaddedIsDisplayed(negative: bool, q: nat, scale: nat, dp: nat, frac: string)
    requires LeastPlaces(q, scale) > 0
    requires |frac| == (if LeastPlaces(q, scale) >= dp then LeastPlaces(q, scale) else dp)
    requires frac == LastDigits(Padded(Shortened(q, scale), |frac| - LeastPlaces(q, scale)), |frac|)
    ensures Joined(negative, WholeText(Shortened(q, scale), LeastPlaces(q, scale)), frac)
            == DisplayText(negative, q, scale, dp)
  {
    var short, least := Shortened(q, scale), LeastPlaces(q, scale);
    PaddedWhole(short, least, |frac| - least);
    assert FixedText(negative, Padded(short, |frac| - least), |frac|)
            == Joined(negative, WholeText(short, least), frac);
  }

  lemma WholeIsDisplayed(negative: bool, q: nat, scale: nat, dp: nat)
    requires LeastPlaces(q, scale) == 0
    ensures Joined(negative, WholeText(Shortened(q, scale), 0), Zeros(dp)) == DisplayText(negative, q, scale, dp)
  {
    PadStep(Shortened(q, scale), 0);
    ZerosAreLastDigits(Shortened(q, scale), dp);
    PadNumber(Shortened(q, scale), 0, dp);
  }

  /** The text shown has max(dp, fewest) decimals and is worth exactly q * 10^-scale. */
  lemma DisplayIsFixedText(negative: bool, q: nat, scale: nat, dp: nat)
    requires dp <= scale
    ensures var places := if LeastPlaces(q, scale) >= dp then LeastPlaces(q, scale) else dp;
            var m := Padded(Shortened(q, scale), places - LeastPlaces(q, scale));
            && DisplayText(negative, q, scale, dp) == FixedText(negative, m, places)
            && m * Pow10(scale - places) == q
            && (dp < places ==> m % 10 != 0)
  {
    var least, short := LeastPlaces(q, scale), Shortened(q, scale);
    ShortenedValue(q, scale);
    PadStep(short, 0);
    PaddedIsWorth(q, scale, if least >= dp then least else dp);
  }

  lemma PaddedIsWorth(q: nat, scale: nat, places: nat)
    requires LeastPlaces(q, scale) <= places <= scale
    ensures Padded(Shortened(q, scale), places - LeastPlaces(q, scale)) * Pow10(scale - places) == q
  {
    var least, short := LeastPlaces(q, scale), Shortened(q, scale);
    ShortenedValue(q, scale);
    Pow10Add(places - least, scale - places);
    MulAssociative(short, Pow10(places - least), Pow10(scale - places));
  }

  /** Reading the text shown for a number gives a number of the same value, with at
      least `dp` decimals, and with a trailing zero only where `dp` asks for it. */
  lemma DisplayRoundTrip(negative: bool, q: nat, scale: nat, dp: nat)
    requires dp <= scale
    ensures var parsed := ParsePlain(DisplayText(negative, q, scale, dp));
            && parsed.Success?
            && SameValue(parsed.value, Decimal(negative, q, 0 - scale))
            && dp <= 0 - parsed.value.exp
            && (dp < 0 - parsed.value.exp ==> parsed.value.digits % 10 != 0)
  {
    DisplayIsFixedText(negative, q, scale, dp);
    var places := if LeastPlaces(q, scale) >= dp then LeastPlaces(q, scale) else dp;
    var m := Padded(Shortened(q, scale), places - LeastPlaces(q, scale));
    FixedTextReadsAs(FixedText(negative, m, places), negative, m, places, q, scale);
  }

  lemma FixedTextReadsAs(text: string, negative: bool, m: nat, places: nat, q: nat, scale: nat)
    requires text == FixedText(negative, m, places) && places <= scale && m * Pow10(scale - places) == q
    ensures ParsePlain(text) == Success(Decimal(negative, m, 0 - places))
    ensures SameValue(ParsePlain(text).value, Decimal(negative, q, 0 - scale))
  {
    ReadFixedText(negative, m, places);
    SameAtScale(negative, m, places, q, scale);
  }

  lemma SameAtScale(negative: bool, m: nat, places: nat, q: nat, scale: nat)
    requires places <= scale && m * Pow10(scale - places) == q
    ensures SameValue(Decimal(negative, m, 0 - places), Decimal(negative, q, 0 - scale))
  {
    SignedProduct(negative, m, Pow10(scale - places));
    assert Pow10(0) == 1;
    CompareAt(Decimal(negative, m, 0 - places), Decimal(negative, q, 0 - scale), 0 - scale);
  }

  /** The text of an amount as a number of 8 decimals, or of `dp` when those are more. Read
      again it is that number, with `dp` decimals or with no zero to spare. */
  ghost predicate Shows(text: string, value: Decimal, dp: nat) {
    var scale := if dp <= 8 then 8 else dp;
    var parsed := ParsePlain(text);
    && Quantize(value, scale).Success? && parsed.Success?
    && SameValue(parsed.value, Quantize(value, scale).value)
    && dp <= 0 - parsed.value.exp && (dp < 0 - parsed.value.exp ==> parsed.value.digits % 10 != 0)
  }

  lemma DisplayShows(value: Decimal, dp: nat)
    requires Quantize(value, DisplayScale(dp)).Success?
    ensures var scale := DisplayScale(dp);
            Shows(DisplayText(value.negative, QuantizedDigits(value, scale), scale, dp), value, dp)
  {
    DisplayRoundTrip(value.negative, QuantizedDigits(value, DisplayScale(dp)), DisplayScale(dp), dp);
  }

  /** `format_amount`, branch by branch. */
  method FormatAmount(value: Decimal, currency: Option<string>, dp: nat)
    returns (result: Result<string, MoneyError>)
    ensures result.Success? <==> Quantize(value, if dp <= 8 then 8 else dp).Success?
    ensures result.Success? ==>
              exists text ::
                && Shows(text, value, dp)
                && result.value == text + if currency.Some? && currency.value != "" then " " + currency.value else ""
  {
    var scale := DisplayScale(dp);
    var quantized := Quantize(value, scale);
    if quantized.Failure? {
      return Failure(quantized.error);
    }
    var q := quantized.value.digits;
    var least, short := LeastPlaces(q, scale), Shortened(q, scale);
    var whole := WholeText(short, least);
    var text;
    if least > 0 {
      // The stripping of the source finds nothing to strip.
      NothingToStrip(q, scale);
      var frac := PadFraction(short, least, dp);
      PaddedIsDisplayed(value.negative, q, scale, dp, frac);
      text := Joined(value.negative, whole, frac);
    } else {
      WholeIsDisplayed(value.negative, q, scale, dp);
      text := Joined(value.negative, whole, Zeros(dp));
    }
    DisplayShows(value, dp);
    if currency.Some? && currency.value != "" {
      return Success(text + (" " + currency.value));
    }
    assert text + "" == text;
    return Success(text);
  }
}
