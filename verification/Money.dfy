/**
 Decimal money: the exact parser of frontend/packages/api-client/src/money.ts
 and the printer format_paid_amount_yuan of backend/rust/crates/api/src/client.rs.
 */
module Money {
  import opened Wrappers
  import opened MachineInts
  import opened Numerals
  import opened Strings

  const MAX_SAFE_INTEGER: int := 9_007_199_254_740_991

  datatype MoneyError = InvalidDecimal | InvalidScale | UnsafeResult

  datatype Parsed = Parsed(negative: bool, integer: string, fraction: string)

  predicate Safe(n: int) {
    -MAX_SAFE_INTEGER <= n <= MAX_SAFE_INTEGER
  }

  // ---- Parsing --------------------------------------------------------------------------------

  /** The length of the longest prefix of digits. */
  function Span(s: string): (n: nat)
    ensures n <= |s| && AllDigits(s[..n]) && (n < |s| ==> !IsDigit(s[n]))
  {
    if s == "" || !IsDigit(s[0]) then 0
    else
      var n := Span(s[1..]);
      assert forall i :: 0 < i < n + 1 ==> s[i] == s[1..][i - 1];
      n + 1
  }

  /** The regular expression ^([+-]?)(\d+)(?:\.(\d*))?$ on the trimmed text. */
  function ParseDecimal(text: string): (r: Option<Parsed>)
    ensures r.Some? ==> AllDigits(r.value.integer) && r.value.integer != "" && AllDigits(r.value.fraction)
  {
    var input := Trim(text);
    if input != "" && input[0] in {'+', '-'} then ParseBody(input[1..], input[0] == '-') else ParseBody(input, false)
  }

  /** The digits and the decimal places after an optional sign. */
  function ParseBody(body: string, negative: bool): (r: Option<Parsed>)
    ensures r.Some? ==> AllDigits(r.value.integer) && r.value.integer != "" && AllDigits(r.value.fraction)
  {
    var n := Span(body);
    if n == 0 then None
    else if n == |body| then Some(Parsed(negative, body, ""))
    else if body[n] == '.' && AllDigits(body[n + 1..]) then Some(Parsed(negative, body[..n], body[n + 1..]))
    else None
  }

  /** The digits without the point, and what they are hundredths, thousandths, ... of. */
  predicate WellFormed(p: Parsed) {
    AllDigits(p.integer) && p.integer != "" && AllDigits(p.fraction)
  }

  function Numerator(p: Parsed): nat
    requires WellFormed(p)
  {
    DigitsValue(p.integer + p.fraction)
  }

  function Denominator(p: Parsed): nat {
    Pow10(|p.fraction|)
  }

  // ---- Scaling ------------------------------------------------------------------------------------

  /** A scale is given as a number or as a bigint. */
  datatype Scale = NumberScale(value: int) | BigIntScale(value: int)

  predicate ValidScale(s: Scale) {
    s.value > 0 && (s.NumberScale? ==> Safe(s.value))
  }

  /** The rounded quotient, as the source computes it. */
  function Rounded(numerator: nat, denominator: nat): nat
    requires denominator > 0
  {
    numerator / denominator + if numerator % denominator * 2 >= denominator then 1 else 0
  }

  function Scaled(p: Parsed, factor: nat): int
    requires WellFormed(p)
  {
    var scaled: int := Rounded(Numerator(p) * factor, Denominator(p));
    if p.negative then -scaled else scaled
  }

  function DecimalToScaledInteger(text: string, scale: Scale): Result<int, MoneyError> {
    if !ValidScale(scale) then Failure(InvalidScale)
    else
      var p := ParseDecimal(text);
      if p.None? then Failure(InvalidDecimal)
      else
        var result := Scaled(p.value, scale.value);
        if Safe(result) then Success(result) else Failure(UnsafeResult)
  }

  function DecimalToMinorUnits(text: string, scale: int): Result<int, MoneyError> {
    if scale < 0 || scale > 8 then Failure(InvalidScale) else DecimalToScaledInteger(text, BigIntScale(Pow10(scale)))
  }

  // ---- Rounding is exact ------------------------------------------------------------------------------

  /** m is the integer nearest to numerator / denominator, and the larger one when two are equally near. */
  ghost predicate Nearest(m: int, numerator: nat, denominator: nat) {
    2 * numerator - denominator < 2 * (m * denominator) <= 2 * numerator + denominator
  }

  lemma RoundedIsNearest(numerator: nat, denominator: nat)
    requires denominator > 0
    ensures Nearest(Rounded(numerator, denominator), numerator, denominator)
  {
    var q, r := numerator / denominator, numerator % denominator;
    assert numerator == q * denominator + r;
    assert (q + 1) * denominator == q * denominator + denominator;
  }

  lemma Multiples(m: int, n: int, d: nat)
    ensures m < n ==> m * d + d <= n * d
  {
    var k := n - m;
    assert (m + k) * d == m * d + (k - 1) * d + d;
    assert k >= 1 ==> (k - 1) * d >= 0;
  }

  /** There is only one such integer. */
  lemma NearestIsUnique(m: int, n: int, numerator: nat, denominator: nat)
    requires denominator > 0 && Nearest(m, numerator, denominator) && Nearest(n, numerator, denominator)
    ensures m == n
  {
    Multiples(m, n, denominator);
    Multiples(n, m, denominator);
  }

  /** n is the nearest integer to value times scale, with ties away from zero. */
  ghost predicate NearestToScaled(n: int, p: Parsed, scale: nat)
    requires WellFormed(p)
  {
    Nearest(if p.negative then -n else n, Numerator(p) * scale, Denominator(p))
  }

  /** decimalToScaledInteger: an invalid scale and an invalid text are refused; otherwise the result is the integer
      nearest to value times scale with ties away from zero, or the range error when that integer is not safe. */
  lemma ScaledIntegerIsNearest(text: string, scale: Scale, n: int)
    ensures !ValidScale(scale) ==> DecimalToScaledInteger(text, scale) == Failure(InvalidScale)
    ensures ValidScale(scale) && ParseDecimal(text).None? ==>
              DecimalToScaledInteger(text, scale) == Failure(InvalidDecimal)
    ensures ValidScale(scale) && ParseDecimal(text).Some?
            && NearestToScaled(n, ParseDecimal(text).value, scale.value) ==>
              DecimalToScaledInteger(text, scale) == if Safe(n) then Success(n) else Failure(UnsafeResult)
  {
    if ValidScale(scale) && ParseDecimal(text).Some? {
      NearestIsComputed(ParseDecimal(text).value, scale.value, n);
    }
  }

  /** There is such an integer, it is what the source computes, and there is no other. */
  lemma NearestIsComputed(p: Parsed, scale: nat, n: int)
    requires WellFormed(p)
    ensures NearestToScaled(n, p, scale) <==> n == Scaled(p, scale)
  {
    var numerator, denominator := Numerator(p) * scale, Denominator(p);
    RoundedIsNearest(numerator, denominator);
    if NearestToScaled(n, p, scale) {
      NearestIsUnique(if p.negative then -n else n, Rounded(numerator, denominator), numerator, denominator);
    }
  }

  // ---- Trailing zeros -----------------------------------------------------------------------------------

  function Sign(negative: bool): string {
    if negative then ['-'] else ""
  }

  lemma SignedTextIsTrimmed(body: string, sign: char)
    requires body != "" && Trimmed(body) && !IsSpace(sign)
    ensures Trim([sign] + body) == [sign] + body
  {
    assert ([sign] + body)[|body|] == body[|body| - 1];
    TrimOfTrimmed([sign] + body);
  }

  lemma SignedParses(body: string, sign: char)
    requires body != "" && IsDigit(body[0]) && Trimmed(body) && sign in {'+', '-'}
    ensures ParseDecimal([sign] + body) == ParseBody(body, sign == '-')
  {
    SignedTextIsTrimmed(body, sign);
    var text := [sign] + body;
    assert text[0] == sign && text[1..] == body;
  }

  lemma PlainParses(body: string)
    requires body != "" && IsDigit(body[0]) && Trimmed(body)
    ensures ParseDecimal(body) == ParseBody(body, false)
  {
    TrimOfTrimmed(body);
  }

  /** No sign, a plus sign or a minus sign. */
  predicate IsSign(sign: string) {
    sign == "" || sign == ['+'] || sign == ['-']
  }

  /** A signed body parses like the body. */
  lemma SignParses(body: string, sign: string)
    requires body != "" && IsDigit(body[0]) && Trimmed(body) && IsSign(sign)
    ensures ParseDecimal(sign + body) == ParseBody(body, sign == ['-'])
  {
    if sign == "" {
      PlainParses(body);
      assert sign + body == body;
    } else {
      SignedParses(body, sign[0]);
      assert sign == [sign[0]];
    }
  }

  lemma BodyParses(integer: string, fraction: string, negative: bool)
    requires AllDigits(integer) && integer != "" && AllDigits(fraction)
    ensures Trimmed(integer + "." + fraction) && Trimmed(integer)
    ensures ParseBody(integer + "." + fraction, negative) == Some(Parsed(negative, integer, fraction))
    ensures ParseBody(integer, negative) == Some(Parsed(negative, integer, ""))
  {
    var text := integer + "." + fraction;
    SpanOf(integer, "." + fraction);
    SpanOf(integer, "");
    assert integer + "" == integer;
    assert text == integer + ("." + fraction);
    assert text[|integer| + 1..] == fraction && text[..|integer|] == integer;
  }

  /** A text of this shape parses to its parts. */
  lemma TextParses(integer: string, fraction: string, sign: string)
    requires AllDigits(integer) && integer != "" && AllDigits(fraction) && IsSign(sign)
    ensures ParseDecimal(sign + (integer + "." + fraction)) == Some(Parsed(sign == ['-'], integer, fraction))
    ensures ParseDecimal(sign + integer) == Some(Parsed(sign == ['-'], integer, ""))
  {
    BodyParses(integer, fraction, sign == ['-']);
    SignParses(integer + "." + fraction, sign);
    SignParses(integer, sign);
  }

  lemma {:induction false} SpanOf(digits: string, rest: string)
    requires AllDigits(digits) && (rest == "" || !IsDigit(rest[0]))
    ensures Span(digits + rest) == |digits|
  {
    if digits == "" {
      assert digits + rest == rest;
    } else {
      SpanOf(digits[1..], rest);
      assert (digits + rest)[1..] == digits[1..] + rest;
    }
  }

  /** Zeros after the last decimal place change nothing, for any scale. */
  lemma TrailingZerosAreIrrelevant(integer: string, fraction: string, sign: string, zeros: nat, scale: Scale)
    requires AllDigits(integer) && integer != "" && AllDigits(fraction) && IsSign(sign)
    ensures DecimalToScaledInteger(sign + (integer + "." + (fraction + Zeros(zeros))), scale)
         == DecimalToScaledInteger(sign + (integer + "." + fraction), scale)
  {
    ZerosAreZero(zeros);
    TextParses(integer, fraction, sign);
    TextParses(integer, fraction + Zeros(zeros), sign);
    if ValidScale(scale) {
      MoreZerosScaleTheSame(Parsed(sign == ['-'], integer, fraction), zeros, scale.value);
    }
  }

  lemma MoreZerosScaleTheSame(p: Parsed, zeros: nat, factor: nat)
    requires WellFormed(p)
    ensures AllDigits(p.fraction + Zeros(zeros))
    ensures Scaled(p.(fraction := p.fraction + Zeros(zeros)), factor) == Scaled(p, factor)
  {
    MoreZeros(p, zeros);
    Rearrange(Numerator(p), Pow10(zeros), factor);
    CommonFactor(Numerator(p) * factor, Denominator(p), Pow10(zeros));
    ScaledOf(p, factor, Numerator(p) * factor, Denominator(p));
    ScaledOf(p.(fraction := p.fraction + Zeros(zeros)), factor, Numerator(p) * factor * Pow10(zeros),
             Denominator(p) * Pow10(zeros));
  }

  lemma ScaledOf(p: Parsed, factor: nat, numerator: nat, denominator: nat)
    requires WellFormed(p) && Numerator(p) * factor == numerator && Denominator(p) == denominator && denominator > 0
    ensures Scaled(p, factor) == if p.negative then -(Rounded(numerator, denominator) as int)
                                 else Rounded(numerator, denominator)
  {
  }

  /** n more zeros multiply numerator and denominator by the same power of ten. */
  lemma MoreZeros(p: Parsed, zeros: nat)
    requires WellFormed(p)
    ensures AllDigits(p.fraction + Zeros(zeros))
    ensures Numerator(p.(fraction := p.fraction + Zeros(zeros))) == Numerator(p) * Pow10(zeros)
    ensures Denominator(p.(fraction := p.fraction + Zeros(zeros))) == Denominator(p) * Pow10(zeros)
  {
    ZerosAreZero(zeros);
    ValueWithZeros(p.integer + p.fraction, zeros);
    assert p.integer + (p.fraction + Zeros(zeros)) == (p.integer + p.fraction) + Zeros(zeros);
    PowersMultiply(|p.fraction|, zeros);
  }

  lemma Rearrange(a: nat, b: nat, c: nat)
    ensures a * b * c == a * c * b
  {
  }

  lemma ScaleUp(a: int, b: int, f: nat)
    requires f > 0
    ensures a < b ==> a * f < b * f
    ensures a <= b ==> a * f <= b * f
  {
    assert (b - a) * f == b * f - a * f;
    assert b - a > 0 ==> (b - a) * f > 0;
  }

  lemma NearestScales(m: int, numerator: nat, denominator: nat, f: nat)
    requires f > 0 && Nearest(m, numerator, denominator)
    ensures Nearest(m, numerator * f, denominator * f)
  {
    var product := m * denominator;
    ScaleUp(2 * numerator - denominator, 2 * product, f);
    ScaleUp(2 * product, 2 * numerator + denominator, f);
    DistributeTwice(numerator, denominator, f);
    DistributeTwice(product, 0, f);
    assert product * f == m * (denominator * f);
  }

  lemma DistributeTwice(a: int, b: int, f: int)
    ensures (2 * a - b) * f == 2 * (a * f) - b * f
    ensures (2 * a + b) * f == 2 * (a * f) + b * f
  {
  }

  /** A common factor of numerator and denominator does not change the rounding. */
  lemma CommonFactor(numerator: nat, denominator: nat, f: nat)
    requires denominator > 0 && f > 0
    ensures denominator * f > 0 && Rounded(numerator * f, denominator * f) == Rounded(numerator, denominator)
  {
    ScaleUp(0, denominator, f);
    RoundedIsNearest(numerator, denominator);
    NearestScales(Rounded(numerator, denominator), numerator, denominator, f);
    RoundedIsNearest(numerator * f, denominator * f);
    NearestIsUnique(Rounded(numerator, denominator), Rounded(numerator * f, denominator * f), numerator * f,
                    denominator * f);
  }

  // ---- Printing ----------------------------------------------------------------------------------------------

  /** The decimal digits of a number, as the formatter writes them. */
  function Digits(n: nat): (s: string)
    ensures s != "" && AllDigits(s)
  {
    var last := ['0' + (n % 10) as char];
    if n < 10 then last else Digits(n / 10) + last
  }

  lemma {:induction false} DigitsRoundTrip(n: nat)
    ensures DigitsValue(Digits(n)) == n
  {
    if n >= 10 {
      DigitsRoundTrip(n / 10);
      var last := ['0' + (n % 10) as char];
      assert (Digits(n / 10) + last)[..|Digits(n / 10)|] == Digits(n / 10);
    } else {
      assert Digits(n)[..0] == "";
    }
  }

  function FractionText(frac: nat): string
    requires 0 < frac < 100
  {
    if frac % 10 == 0 then Digits(frac / 10) else if frac < 10 then "0" + Digits(frac) else Digits(frac)
  }

  function Abs(n: int): nat {
    if n < 0 then -n else n
  }

  /** format_paid_amount_yuan. */
  function FormatPaidAmountYuan(cents: i64): string {
    var yuan, frac := Abs(cents) / 100, Abs(cents) % 100;
    var body := if frac == 0 then Digits(yuan) else Digits(yuan) + "." + FractionText(frac);
    Sign(cents < 0) + body
  }

  lemma FractionTextValue(frac: nat)
    requires 0 < frac < 100
    ensures var f := FractionText(frac);
            && AllDigits(f) && 1 <= |f| <= 2
            && DigitsValue(f) * 100 == frac * Pow10(|f|)
  {
    assert Pow10(1) == 10 && Pow10(2) == 100;
    if frac % 10 == 0 {
      DigitsRoundTrip(frac / 10);
    } else if frac < 10 {
      DigitsRoundTrip(frac);
      ValueOfAppend("0", Digits(frac));
      assert DigitsValue("0") == 0;
    } else {
      DigitsRoundTrip(frac);
      assert |Digits(frac)| == 2;
    }
  }

  function PrintedFraction(frac: nat): string
    requires frac < 100
  {
    if frac == 0 then "" else FractionText(frac)
  }

  lemma PrintedParses(cents: i64)
    ensures AllDigits(PrintedFraction(Abs(cents) % 100))
    ensures ParseDecimal(FormatPaidAmountYuan(cents))
         == Some(Parsed(cents < 0, Digits(Abs(cents) / 100), PrintedFraction(Abs(cents) % 100)))
  {
    var yuan, frac := Digits(Abs(cents) / 100), Abs(cents) % 100;
    if frac > 0 {
      FractionTextValue(frac);
    }
    TextParses(yuan, PrintedFraction(frac), Sign(cents < 0));
  }

  lemma Hundredths(whole: nat, frac: nat, value: nat, power: nat)
    requires value * 100 == frac * power
    ensures (whole * power + value) * 100 == (100 * whole + frac) * power
  {
    assert (100 * whole + frac) * power == 100 * (whole * power) + frac * power;
  }

  lemma PrintedValue(n: nat)
    ensures AllDigits(PrintedFraction(n % 100))
    ensures DigitsValue(Digits(n / 100) + PrintedFraction(n % 100)) * 100 == n * Pow10(|PrintedFraction(n % 100)|)
  {
    var integer, fraction := Digits(n / 100), PrintedFraction(n % 100);
    DigitsRoundTrip(n / 100);
    if n % 100 == 0 {
      assert integer + fraction == integer;
      assert Pow10(0) == 1;
    } else {
      FractionTextValue(n % 100);
      ValueOfAppend(integer, fraction);
      Hundredths(n / 100, n % 100, DigitsValue(fraction), Pow10(|fraction|));
    }
  }

  lemma ExactQuotient(q: nat, d: nat)
    requires d > 0
    ensures Rounded(q * d, d) == q
  {
    RoundedIsNearest(q * d, d);
    NearestIsUnique(q, Rounded(q * d, d), q * d, d);
  }

  /** Parsing the printed form of c cents gives back c for every c in the safe integer range, and the range error
      for every other 64-bit amount. */
  lemma ParsePrintRoundTrip(cents: i64)
    ensures DecimalToMinorUnits(FormatPaidAmountYuan(cents), 2) == if Safe(cents) then Success(cents)
                                                                   else Failure(UnsafeResult)
  {
    PrintedParses(cents);
    PrintedValue(Abs(cents));
    var p := ParseDecimal(FormatPaidAmountYuan(cents)).value;
    assert Pow10(1) == 10 && Pow10(2) == 100;
    ExactQuotient(Abs(cents), Denominator(p));
    assert Scaled(p, 100) == cents;
  }
}
