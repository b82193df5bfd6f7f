/** Cent amounts and interest rates: checked arithmetic, printing and parsing. */
module Money {
  import opened Wrappers
  import opened Numbers
  import opened Text

  function Negate(x: int): int {
    -x
  }

  function CheckedAdd(a: i64, b: i64): Option<i64> {
    CheckedI64(a + b)
  }

  function CheckedSub(a: i64, b: i64): Option<i64> {
    CheckedI64(a - b)
  }

  /** Truncated division, as machine integers divide. */
  function Quotient(a: int, b: int): int
    requires b > 0
  {
    if a >= 0 then a / b else -((-a) / b)
  }

  /** The share of an amount at a rate in basis points; the product itself must fit 64 bits. */
  function CheckedPercentage(cents: i64, basisPoints: u32): Option<i64> {
    match CheckedI64(cents * basisPoints)
    case None => None
    case Some(product) => CheckedI64(Quotient(product, 10_000))
  }

  lemma PercentageRounds(cents: i64, basisPoints: u32)
    requires cents >= 0
    ensures CheckedPercentage(cents, basisPoints).Some? <==> cents * basisPoints <= I64_MAX
    ensures CheckedPercentage(cents, basisPoints).Some? ==>
              var share := CheckedPercentage(cents, basisPoints).value;
              0 <= share && 10_000 * share <= cents * basisPoints < 10_000 * share + 10_000
  {
    assert 0 <= cents * basisPoints;
  }

  // ---- Printing -------------------------------------------------------------------------------

  function TwoDigits(n: nat): (s: string)
    requires n < 100
    ensures |s| == 2 && AllDigits(s)
  {
    [DigitChar(n / 10), DigitChar(n % 10)]
  }

  function PrintMoney(cents: i64): string {
    var magnitude: int := if cents < 0 then Negate(cents) else cents;
    (if cents < 0 then "-" else "") + Decimal(magnitude / 100) + "." + TwoDigits(magnitude % 100)
  }

  function PrintRate(basisPoints: u32): (s: string)
    ensures s != []
  {
    Decimal(basisPoints / 100) + "." + TwoDigits(basisPoints % 100) + "%"
  }

  // ---- Parsing --------------------------------------------------------------------------------

  datatype ParseError = Empty | Negative | InvalidFormat | TooManyDecimalPlaces | Overflow

  /** The hundredths a fractional part of at most two digits stands for. */
  function Hundredths(fraction: string): nat
    requires AllDigits(fraction) && |fraction| <= 2
  {
    if |fraction| == 1 then 10 * Value(fraction) else Value(fraction)
  }

  /** Whole units and hundredths as hundredths, within the limit of the integer type. */
  function Scaled(whole: string, fraction: string, limit: nat): (r: Result<nat, ParseError>)
    requires AllDigits(whole) && AllDigits(fraction) && |fraction| <= 2
    ensures r.Ok? ==> r.value <= limit
  {
    if Value(whole) > limit then Err(Overflow)
    else if Value(whole) * 100 > limit then Err(Overflow)
    else if Value(whole) * 100 + Hundredths(fraction) > limit then Err(Overflow)
    else Ok(Value(whole) * 100 + Hundredths(fraction))
  }

  /** The digits after the sign: at most one dot, at most two decimals, at least one digit. */
  function ParseCents(unsigned: string): Result<nat, ParseError> {
    if unsigned == [] then Err(InvalidFormat) else
    var parts := SplitDots(unsigned);
    if |parts| > 2 then Err(InvalidFormat) else
    var whole := parts[0];
    var fraction := if |parts| > 1 then parts[1] else [];
    if whole == [] && fraction == [] then Err(InvalidFormat)
    else if !AllDigits(whole) || !AllDigits(fraction) then Err(InvalidFormat)
    else if |fraction| > 2 then Err(TooManyDecimalPlaces)
    else Scaled(whole, fraction, I64_MAX)
  }

  function ParseMoney(text: string): Result<i64, ParseError> {
    var input := Trim(text);
    if input == [] then Err(Empty) else
    var negative := input[0] == '-';
    var unsigned := if input[0] == '-' || input[0] == '+' then input[1..] else input;
    match ParseCents(unsigned)
    case Err(error) => Err(error)
    case Ok(cents) => CentsOf(negative, cents)
  }

  function CentsOf(negative: bool, magnitude: nat): Result<i64, ParseError> {
    match CheckedI64(if negative then Negate(magnitude) else magnitude)
    case None => Err(Overflow)
    case Some(cents) => Ok(cents)
  }

  /** The digits of a rate: a whole part, and optionally a dot with at most two decimals. */
  function ParsePoints(unsigned: string): (r: Result<nat, ParseError>)
    ensures r.Ok? ==> r.value <= U32_MAX
  {
    var parts := SplitDots(unsigned);
    if |parts| > 2 || parts[0] == [] then Err(InvalidFormat) else
    var whole := parts[0];
    var fraction := if |parts| > 1 then parts[1] else [];
    if !AllDigits(whole) || !AllDigits(fraction) then Err(InvalidFormat)
    else if |fraction| > 2 then Err(TooManyDecimalPlaces)
    else Scaled(whole, fraction, U32_MAX)
  }

  function ParseRate(text: string): Result<u32, ParseError> {
    var input := Trim(text);
    if input == [] then Err(Empty)
    else if input[0] == '-' then Err(Negative)
    else
      match ParsePoints(if input[0] == '+' then input[1..] else input)
      case Err(error) => Err(error)
      case Ok(points) => Ok(points)
  }

  // ---- The language of amounts ----------------------------------------------------------------

  /** One way of reading a text as an amount. */
  datatype Reading = Reading(left: string, sign: string, whole: string, dotted: bool, fraction: string, right: string)

  function Unsigned(r: Reading): string {
    if r.dotted then r.whole + "." + r.fraction else r.whole
  }

  /** The grammar: padding, an optional sign, digits, and optionally a dot with more digits. */
  ghost predicate Shaped(text: string, r: Reading) {
    && text == r.left + (r.sign + Unsigned(r)) + r.right
    && AllSpaces(r.left) && AllSpaces(r.right)
    && r.sign in ["", "+", "-"]
    && AllDigits(r.whole) && AllDigits(r.fraction)
    && (r.whole != [] || r.fraction != [])
    && (!r.dotted ==> r.fraction == [])
  }

  /** An amount has at most two decimals. */
  ghost predicate Reads(text: string, r: Reading) {
    Shaped(text, r) && |r.fraction| <= 2
  }

  /** The number that all digits together write once there are two decimals. */
  ghost function Magnitude(r: Reading): nat
    requires AllDigits(r.whole) && AllDigits(r.fraction) && |r.fraction| <= 2
  {
    Value(r.whole + (r.fraction + "00")[..2])
  }

  lemma TwoMoreDigits(whole: string, a: char, b: char)
    requires AllDigits(whole) && IsDigit(a) && IsDigit(b)
    ensures AllDigits(whole + [a, b]) && Value(whole + [a, b]) == 100 * Value(whole) + 10 * Value([a]) + Value([b])
  {
    var s := whole + [a, b];
    assert s[..|s| - 1] == whole + [a] && (whole + [a])[..|whole|] == whole;
    assert [a][..0] == [] && [b][..0] == [];
  }

  lemma MagnitudeIs(r: Reading)
    requires AllDigits(r.whole) && AllDigits(r.fraction) && |r.fraction| <= 2
    ensures Magnitude(r) == 100 * Value(r.whole) + Hundredths(r.fraction)
  {
    var two := (r.fraction + "00")[..2];
    assert two == [two[0], two[1]];
    TwoMoreDigits(r.whole, two[0], two[1]);
    assert Value("0") == 0 by { assert "0"[..0] == []; }
    if |r.fraction| == 1 {
      assert r.fraction == [two[0]] && two[1] == '0';
    } else if |r.fraction| == 2 {
      assert r.fraction == [] + [two[0], two[1]];
      TwoMoreDigits([], two[0], two[1]);
    }
  }

  function Signed(sign: string, magnitude: nat): int {
    if sign == "-" then Negate(magnitude) else magnitude
  }

  lemma SplitUnsigned(r: Reading)
    requires AllDigits(r.whole) && AllDigits(r.fraction)
    ensures SplitDots(Unsigned(r)) == if r.dotted then [r.whole, r.fraction] else [r.whole]
  {
    assert '.' !in r.whole && '.' !in r.fraction;
    if r.dotted {
      SplitOneDot(r.whole, r.fraction);
    } else {
      SplitNoDot(r.whole);
    }
  }

  lemma BodyOf(text: string, r: Reading)
    requires Shaped(text, r)
    ensures Trim(text) == r.sign + Unsigned(r)
    ensures Unsigned(r) != [] && Unsigned(r)[0] != '-' && Unsigned(r)[0] != '+'
  {
    var u := Unsigned(r);
    assert u[0] == if r.whole != [] then r.whole[0] else '.';
    assert u[|u| - 1] == if r.fraction != [] then r.fraction[|r.fraction| - 1]
                         else if r.dotted then '.' else r.whole[|r.whole| - 1];
    TrimOver(r.left, r.sign + u, r.right);
  }

  lemma ScaledExact(whole: string, fraction: string, limit: nat)
    requires AllDigits(whole) && AllDigits(fraction) && |fraction| <= 2
    ensures Scaled(whole, fraction, limit) ==
            var magnitude := 100 * Value(whole) + Hundredths(fraction);
            if magnitude > limit then Err(Overflow) else Ok(magnitude)
  {
  }

  lemma CentsOfReading(text: string, r: Reading)
    requires Reads(text, r)
    ensures ParseCents(Unsigned(r)) == if Magnitude(r) > I64_MAX then Err(Overflow) else Ok(Magnitude(r))
  {
    SplitUnsigned(r);
    MagnitudeIs(r);
    ScaledExact(r.whole, r.fraction, I64_MAX);
    assert Unsigned(r) != [];
  }

  /** Every text in the language is read as exactly its signed value, or overflows iff that value is too large. */
  lemma MoneyOfReading(text: string, r: Reading)
    requires Reads(text, r)
    ensures ParseMoney(text) ==
            if Magnitude(r) > I64_MAX then Err(Overflow)
            else Ok(Signed(r.sign, Magnitude(r)))
  {
    BodyOf(text, r);
    CentsOfReading(text, r);
    var input := Trim(text);
    assert r.sign != "" ==> input[0] == r.sign[0] && input[1..] == Unsigned(r);
    assert r.sign == "" ==> input == Unsigned(r);
  }

  /** The parts between the dots of the unsigned text, when they are as the grammar wants them. */
  ghost predicate GoodParts(parts: seq<string>) {
    && 1 <= |parts| <= 2 && AllDigits(parts[0])
    && (|parts| == 1 ==> parts[0] != [])
    && (|parts| == 2 ==> AllDigits(parts[1]) && (parts[0] != [] || parts[1] != []))
  }

  lemma ReadingOfParts(left: string, sign: string, unsigned: string, right: string) returns (r: Reading)
    requires AllSpaces(left) && AllSpaces(right) && sign in ["", "+", "-"] && GoodParts(SplitDots(unsigned))
    ensures Shaped(left + (sign + unsigned) + right, r) && r.sign == sign && r.whole == SplitDots(unsigned)[0]
    ensures r.fraction == if |SplitDots(unsigned)| == 2 then SplitDots(unsigned)[1] else []
  {
    var parts := SplitDots(unsigned);
    SplitThenJoin(unsigned);
    if |parts| == 2 {
      assert parts[1..] == [parts[1]];
      assert JoinDots(parts) == parts[0] + "." + parts[1];
      r := Reading(left, sign, parts[0], true, parts[1], right);
    } else {
      r := Reading(left, sign, parts[0], false, [], right);
    }
    assert Unsigned(r) == unsigned;
  }

  lemma SignOf(input: string, n: nat)
    requires n <= 1 && n <= |input| && (n == 1 ==> input[0] == '+' || input[0] == '-')
    ensures input == input[..n] + input[n..] && input[..n] in ["", "+", "-"]
    ensures n == 1 ==> input[..n] == [input[0]]
  {
    assert input[..n] == "" || input[..n] == [input[0]];
  }

  /** Conversely, whatever is read as an amount, or rejected only for its size or its decimals, is in the language. */
  lemma ReadingOfMoney(text: string) returns (r: Reading)
    requires ParseMoney(text).Ok? || ParseMoney(text) in [Err(Overflow), Err(TooManyDecimalPlaces)]
    ensures Shaped(text, r)
    ensures |r.fraction| > 2 <==> ParseMoney(text) == Err(TooManyDecimalPlaces)
  {
    var left, right := TrimShape(text);
    var input := Trim(text);
    var n := if input[0] == '-' || input[0] == '+' then 1 else 0;
    SignOf(input, n);
    r := ReadingOfParts(left, input[..n], input[n..], right);
  }

  lemma LongFraction(text: string, r: Reading)
    requires Shaped(text, r) && |r.fraction| > 2
    ensures ParseMoney(text) == Err(TooManyDecimalPlaces)
    ensures r.sign != "-" && r.whole != [] ==> ParseRate(text) == Err(TooManyDecimalPlaces)
  {
    BodyOf(text, r);
    SplitUnsigned(r);
    var input := Trim(text);
    assert r.sign != "" ==> input[0] == r.sign[0] && input[1..] == Unsigned(r);
    assert r.sign == "" ==> input == Unsigned(r);
  }

  lemma BlankIsTrimmedAway(text: string)
    ensures Trim(text) == [] <==> AllSpaces(text)
  {
    NameAccepted(text);
  }

  /** Why a text is no amount: it is blank, it has too many decimals, it is too large, or it is not in the language. */
  lemma MoneyRefusals(text: string)
    ensures ParseMoney(text) == Err(Empty) <==> AllSpaces(text)
    ensures ParseMoney(text) == Err(TooManyDecimalPlaces) <==> exists r :: Shaped(text, r) && |r.fraction| > 2
    ensures ParseMoney(text) == Err(InvalidFormat) <==> !AllSpaces(text) && !exists r :: Shaped(text, r)
    ensures ParseMoney(text) != Err(Negative)
  {
    BlankIsTrimmedAway(text);
    if ParseMoney(text).Ok? || ParseMoney(text) in [Err(Overflow), Err(TooManyDecimalPlaces)] {
      var r := ReadingOfMoney(text);
    }
    forall r | Shaped(text, r)
      ensures |r.fraction| > 2 <==> ParseMoney(text) == Err(TooManyDecimalPlaces)
      ensures ParseMoney(text) != Err(InvalidFormat)
    {
      if |r.fraction| > 2 {
        LongFraction(text, r);
      } else {
        MoneyOfReading(text, r);
      }
    }
  }

  lemma TwoDigitsValue(n: nat)
    requires n < 100
    ensures Value(TwoDigits(n)) == n
  {
    var s := TwoDigits(n);
    assert s[..1] == [DigitChar(n / 10)];
    assert s[..1][..0] == [];
    assert Value(s[..1]) == n / 10;
  }

  /** How a printed amount reads. */
  function PrintedReading(cents: i64): Reading {
    var magnitude: int := if cents < 0 then Negate(cents) else cents;
    Reading("", if cents < 0 then "-" else "", Decimal(magnitude / 100), true, TwoDigits(magnitude % 100), "")
  }

  lemma PrintedReads(cents: i64)
    ensures Reads(PrintMoney(cents), PrintedReading(cents))
  {
    var r := PrintedReading(cents);
    assert PrintMoney(cents) == "" + (r.sign + Unsigned(r)) + "";
  }

  lemma PrintedMagnitude(cents: i64)
    ensures Magnitude(PrintedReading(cents)) == if cents < 0 then Negate(cents) else cents
  {
    var magnitude: int := if cents < 0 then Negate(cents) else cents;
    ValueOfDecimal(magnitude / 100);
    TwoDigitsValue(magnitude % 100);
    MagnitudeIs(PrintedReading(cents));
  }

  /** Printing then parsing is the identity except on the one amount whose magnitude has no positive twin. */
  lemma MoneyRoundTrip(cents: i64)
    ensures ParseMoney(PrintMoney(cents)) == if cents == I64_MIN then Err(Overflow) else Ok(cents)
  {
    PrintedReads(cents);
    PrintedMagnitude(cents);
    MoneyOfReading(PrintMoney(cents), PrintedReading(cents));
  }

  lemma PointsOfReading(r: Reading)
    requires AllDigits(r.whole) && AllDigits(r.fraction) && |r.fraction| <= 2 && r.whole != []
    requires (!r.dotted ==> r.fraction == [])
    ensures ParsePoints(Unsigned(r)) == if Magnitude(r) > U32_MAX then Err(Overflow) else Ok(Magnitude(r))
  {
    SplitUnsigned(r);
    MagnitudeIs(r);
    ScaledExact(r.whole, r.fraction, U32_MAX);
  }

  /**
   * Every text in the language with a whole part and no minus sign is read as its value, or overflows iff that is too
   * large.
   */
  lemma RateOfReading(text: string, r: Reading)
    requires Reads(text, r) && r.sign != "-" && r.whole != []
    ensures ParseRate(text) == if Magnitude(r) > U32_MAX then Err(Overflow) else Ok(Magnitude(r))
  {
    BodyOf(text, r);
    PointsOfReading(r);
    var input := Trim(text);
    assert r.sign != "" ==> input[0] == r.sign[0] && input[1..] == Unsigned(r);
    assert r.sign == "" ==> input == Unsigned(r);
  }

  /** Conversely, whatever is read as a rate, or rejected only for its size or its decimals, is such a text. */
  lemma ReadingOfRate(text: string) returns (r: Reading)
    requires ParseRate(text).Ok? || ParseRate(text) in [Err(Overflow), Err(TooManyDecimalPlaces)]
    ensures Shaped(text, r) && r.sign != "-" && r.whole != []
    ensures |r.fraction| > 2 <==> ParseRate(text) == Err(TooManyDecimalPlaces)
  {
    var left, right := TrimShape(text);
    var input := Trim(text);
    var n := if input[0] == '+' then 1 else 0;
    SignOf(input, n);
    r := ReadingOfParts(left, input[..n], input[n..], right);
  }

  /** The texts that are rates but for the number of decimals and the size. */
  ghost predicate RateShaped(text: string, r: Reading) {
    Shaped(text, r) && r.sign != "-" && r.whole != []
  }

  /** Why a text is no rate: as for amounts, and a minus sign is told apart, whatever follows it. */
  lemma RateRefusals(text: string)
    ensures ParseRate(text) == Err(Empty) <==> AllSpaces(text)
    ensures ParseRate(text) == Err(Negative) <==> Trim(text) != [] && Trim(text)[0] == '-'
    ensures ParseRate(text) == Err(TooManyDecimalPlaces) <==> exists r :: RateShaped(text, r) && |r.fraction| > 2
    ensures ParseRate(text) == Err(InvalidFormat) <==>
            !AllSpaces(text) && Trim(text)[..1] != "-" && !exists r :: RateShaped(text, r)
  {
    BlankIsTrimmedAway(text);
    if ParseRate(text).Ok? || ParseRate(text) in [Err(Overflow), Err(TooManyDecimalPlaces)] {
      var r := ReadingOfRate(text);
      assert RateShaped(text, r);
    }
    forall r | RateShaped(text, r)
      ensures |r.fraction| > 2 <==> ParseRate(text) == Err(TooManyDecimalPlaces)
      ensures ParseRate(text) != Err(InvalidFormat)
    {
      if |r.fraction| > 2 {
        LongFraction(text, r);
      } else {
        RateOfReading(text, r);
      }
    }
  }

  /** How a printed rate reads once its percent sign is dropped. */
  function PrintedRate(basisPoints: u32): Reading {
    Reading("", "", Decimal(basisPoints / 100), true, TwoDigits(basisPoints % 100), "")
  }

  lemma DroppedPercent(basisPoints: u32)
    ensures var text := PrintRate(basisPoints);
            text[..|text| - 1] == Unsigned(PrintedRate(basisPoints))
  {
    assert PrintRate(basisPoints) == Unsigned(PrintedRate(basisPoints)) + "%";
  }

  lemma PrintedRateReads(basisPoints: u32)
    ensures Reads(Unsigned(PrintedRate(basisPoints)), PrintedRate(basisPoints))
  {
    var body := Unsigned(PrintedRate(basisPoints));
    assert body == "" + ("" + body) + "";
  }

  lemma PrintedRateMagnitude(basisPoints: u32)
    ensures Magnitude(PrintedRate(basisPoints)) == basisPoints
  {
    ValueOfDecimal(basisPoints / 100);
    TwoDigitsValue(basisPoints % 100);
    MagnitudeIs(PrintedRate(basisPoints));
  }

  lemma RateWithoutPercent(basisPoints: u32)
    ensures var text := PrintRate(basisPoints);
            ParseRate(text[..|text| - 1]) == Ok(basisPoints)
  {
    DroppedPercent(basisPoints);
    PrintedRateReads(basisPoints);
    PrintedRateMagnitude(basisPoints);
    RateOfReading(Unsigned(PrintedRate(basisPoints)), PrintedRate(basisPoints));
  }

  lemma RateWithPercent(basisPoints: u32)
    ensures ParseRate(PrintRate(basisPoints)) == Err(InvalidFormat)
  {
    var whole, tail := Decimal(basisPoints / 100), TwoDigits(basisPoints % 100) + "%";
    var text := PrintRate(basisPoints);
    assert text == whole + "." + tail;
    assert tail[2] == '%';
    assert '.' !in whole && '.' !in tail;
    SplitOneDot(whole, tail);
    assert text[0] == whole[0] && text[|text| - 1] == '%';
    TrimIdentity(text);
  }

  /** A printed rate is read back once its percent sign is dropped, and is rejected with it. */
  lemma RateRoundTrip(basisPoints: u32)
    ensures var text := PrintRate(basisPoints);
            ParseRate(text[..|text| - 1]) == Ok(basisPoints) && ParseRate(text) == Err(InvalidFormat)
  {
    RateWithoutPercent(basisPoints);
    RateWithPercent(basisPoints);
  }
}
