/**
 Token amounts as text: the core printer, the CLI's own printer, and the
 configuration fields that are printed with the first and read back.
 */
module TokenAmount {
  import opened Prelude
  import opened Decimal

  /** 10^decimals computed in 64 bits, wrapping as an optimised build does. */
  function UnitDivisor(decimals: nat): nat {
    Pow10(decimals) % TWO_TO_THE_64
  }

  /** The core printer; None is the division-by-zero panic. */
  function FormatTokenAmount(amount: nat, decimals: nat): Option<string> {
    var unitDivisor := UnitDivisor(decimals);
    if unitDivisor == 0 then None
    else
      var wholePart := Quotient(amount, unitDivisor);
      var remainder := Remainder(amount, unitDivisor);
      if remainder == 0 then Some(Digits(wholePart))
      else
        var decimalText := PadLeft(Digits(remainder), decimals);
        Some(Digits(wholePart) + "." + TrimTrailingZeros(decimalText))
  }

  /** The CLI's printer: the divisor is computed in 256 bits. */
  function CliFormat(balance: nat, decimals: nat): Option<string> {
    var divisor := Pow10(decimals) % TWO_TO_THE_256;
    if balance == 0 then Some("0")
    else if divisor == 0 then None
    else
      var integerPart := Quotient(balance, divisor);
      var fractionalPart := Remainder(balance, divisor);
      if fractionalPart == 0 then Some(Digits(integerPart))
      else
        var fraction := TrimTrailingZeros(PadLeft(Digits(fractionalPart), decimals));
        if fraction == [] then Some(Digits(integerPart))
        else Some(Digits(integerPart) + "." + fraction)
  }

  /** Position of the first decimal point, or the length when there is none. */
  function PointIndex(text: string): (i: nat)
    ensures i <= |text| && (forall k :: 0 <= k < i ==> text[k] != '.') && (i < |text| ==> text[i] == '.')
  {
    if text == [] || text[0] == '.' then 0 else 1 + PointIndex(text[1..])
  }

  /**
   Reading decimal text at a number of decimals: the point is removed, digits
   beyond `decimals` are cut off, missing ones are filled with zeros. None is a
   reading error, which includes a result beyond 256 bits.
   */
  function ParseUnits(text: string, decimals: nat): Option<nat> {
    var point := PointIndex(text);
    var joined := if point == |text| then text else text[..point] + text[point + 1..];
    var decimalLength := |joined| - point;
    if decimals > 77 || joined == [] || !IsDigits(joined) then None
    else if decimalLength > decimals then
      FitsU256(Value(joined[..|joined| - (decimalLength - decimals)]))
    else
      FitsU256(Value(joined) * Pow10(decimals - decimalLength))
  }

  function FitsU256(n: nat): Option<nat> {
    if n < TWO_TO_THE_256 then Some(n) else None
  }

  lemma PointAfterDigits(whole: string, rest: string)
    requires IsDigits(whole)
    ensures PointIndex(whole) == |whole|
    ensures PointIndex(whole + "." + rest) == |whole|
  {
    var text := whole + "." + rest;
    assert forall k :: 0 <= k < |whole| ==> text[k] == whole[k] && text[k] != '.';
    assert text[|whole|] == '.';
    assert forall k :: 0 <= k < |whole| ==> IsDigit(whole[k]) && whole[k] != '.';
  }

  /** What both printers print, for a divisor that is the true power of ten. */
  function PlainText(amount: nat, decimals: nat): string {
    var divisor := Pow10(decimals);
    if Remainder(amount, divisor) == 0 then Digits(Quotient(amount, divisor))
    else Digits(Quotient(amount, divisor)) + "."
         + TrimTrailingZeros(PadLeft(Digits(Remainder(amount, divisor)), decimals))
  }

  /** The fraction of a non-zero remainder: non-empty, no trailing zero, worth the remainder. */
  lemma FractionText(remainder: nat, decimals: nat)
    requires 0 < remainder < Pow10(decimals)
    ensures var t := TrimTrailingZeros(PadLeft(Digits(remainder), decimals));
      && IsDigits(t) && t != [] && t[|t| - 1] != '0' && |t| <= decimals
      && Value(t) * Pow10(decimals - |t|) == remainder
  {
    ValueOfDigits(remainder);
    DigitsFit(remainder, decimals);
    ValueOfPadded(Digits(remainder), decimals);
    ValueOfTrimmed(PadLeft(Digits(remainder), decimals));
  }

  /** Reading whole and fraction digits joined by a point. */
  lemma ReadsJoined(w: string, t: string, decimals: nat)
    requires IsDigits(w) && IsDigits(t) && w != [] && |t| <= decimals <= 77
    ensures ParseUnits(w + "." + t, decimals) == FitsU256(Value(w + t) * Pow10(decimals - |t|))
  {
    var text := w + "." + t;
    PointAfterDigits(w, t);
    assert text[..|w|] + text[|w| + 1..] == w + t;
  }

  lemma PlainTextReadsBack(amount: nat, decimals: nat)
    requires amount < TWO_TO_THE_256 && decimals <= 77
    ensures ParseUnits(PlainText(amount, decimals), decimals) == Some(amount)
  {
    var divisor := Pow10(decimals);
    var w, remainder := Digits(Quotient(amount, divisor)), Remainder(amount, divisor);
    ValueOfDigits(Quotient(amount, divisor));
    if remainder == 0 {
      PointAfterDigits(w, "");
    } else {
      var t := TrimTrailingZeros(PadLeft(Digits(remainder), decimals));
      FractionText(remainder, decimals);
      JoinedReadsBack(amount, decimals, w, t);
      assert PlainText(amount, decimals) == w + "." + t;
    }
  }

  lemma JoinedReadsBack(amount: nat, decimals: nat, w: string, t: string)
    requires amount < TWO_TO_THE_256 && |t| <= decimals <= 77
    requires IsDigits(w) && IsDigits(t) && w != []
    requires Value(w) == Quotient(amount, Pow10(decimals))
    requires Value(t) * Pow10(decimals - |t|) == Remainder(amount, Pow10(decimals))
    ensures ParseUnits(w + "." + t, decimals) == Some(amount)
  {
    ReadsJoined(w, t, decimals);
    JoinedValue(amount, decimals, w, t);
  }

  /** Whole and fraction digits read together, then filled up with zeros. */
  lemma JoinedValue(amount: nat, decimals: nat, w: string, t: string)
    requires IsDigits(w) && IsDigits(t) && |t| <= decimals
    requires Value(w) == Quotient(amount, Pow10(decimals))
    requires Value(t) * Pow10(decimals - |t|) == Remainder(amount, Pow10(decimals))
    ensures IsDigits(w + t) && Value(w + t) * Pow10(decimals - |t|) == amount
  {
    ValueOfConcat(w, t);
    Pow10Adds(|t|, decimals - |t|);
    Distribute(Value(w), Pow10(|t|), Value(t), Pow10(decimals - |t|));
  }

  lemma Distribute(a: nat, b: nat, c: nat, d: nat)
    ensures (a * b + c) * d == a * (b * d) + c * d
  {
  }

  lemma SmallDivisorsAreExact(decimals: nat)
    ensures decimals <= 19 ==> UnitDivisor(decimals) == Pow10(decimals)
    ensures decimals > 19 ==> UnitDivisor(decimals) < Pow10(19) * 2 < Pow10(decimals)
  {
    assert Pow10(10) == 1_0000000000;
    assert Pow10(19) == 1_000000000_0000000000 by { Pow10Adds(10, 9); assert Pow10(9) == 1_000000000; }
    if decimals <= 19 {
      Pow10Grows(decimals, 19);
    } else {
      Pow10Grows(20, decimals);
      assert Pow10(20) == 10 * Pow10(19);
    }
  }

  lemma CoreIsPlain(amount: nat, decimals: nat)
    requires decimals <= 19
    ensures FormatTokenAmount(amount, decimals) == Some(PlainText(amount, decimals))
  {
    SmallDivisorsAreExact(decimals);
  }

  lemma CliIsPlain(amount: nat, decimals: nat)
    requires decimals <= 77
    ensures CliFormat(amount, decimals) == Some(PlainText(amount, decimals))
  {
    CliDivisorIsExact(decimals);
    var divisor := Pow10(decimals);
    if amount == 0 {
      QuotientIsUnique(0, divisor, 0);
      assert Digits(0) == "0";
    } else if Remainder(amount, divisor) != 0 {
      FractionText(Remainder(amount, divisor), decimals);
    }
  }

  lemma CliDivisorIsExact(decimals: nat)
    requires decimals <= 77
    ensures Pow10(decimals) % TWO_TO_THE_256 == Pow10(decimals)
  {
    Pow10At77();
    Pow10Grows(decimals, 77);
  }

  lemma Pow10At77()
    ensures Pow10(77) < TWO_TO_THE_256
  {
    assert Pow10(7) == 1_0000000;
    var n: nat := 7;
    assert Pow10(n + n) == 1_0000000_0000000 by {
      Pow10Adds(n, n);
    }
    assert Pow10(n + n + n + n) == 1_0000000_0000000_0000000_0000000 by {
      Pow10Adds(n + n, n + n);
    }
    var m: nat := 28;
    Pow10Adds(m, m);
    Pow10Adds(m + m, n + n);
    Pow10Adds(m + m + n + n, n);
  }

  /** Printing then reading is the identity on 256-bit amounts: exactly up to 19 decimals. */
  ghost predicate ReadsBack(decimals: nat) {
    forall amount: nat :: amount < TWO_TO_THE_256 ==>
      var text := FormatTokenAmount(amount, decimals);
      text.Some? && ParseUnits(text.value, decimals) == Some(amount)
  }

  lemma PrintedAmountsReadBack(decimals: nat)
    ensures ReadsBack(decimals) <==> decimals <= 19
  {
    if decimals <= 19 {
      forall amount: nat | amount < TWO_TO_THE_256
        ensures var text := FormatTokenAmount(amount, decimals);
          text.Some? && ParseUnits(text.value, decimals) == Some(amount)
      {
        CoreIsPlain(amount, decimals);
        PlainTextReadsBack(amount, decimals);
      }
    } else {
      SmallDivisorsAreExact(decimals);
      var amount := UnitDivisor(decimals);
      if amount > 0 {
        OneUnitPrintsAsOne(decimals);
        OneReadsAsThePower(decimals);
        assert amount < TWO_TO_THE_256;
      } else {
        assert FormatTokenAmount(0, decimals) == None;
      }
    }
  }

  lemma OneReadsAsThePower(decimals: nat)
    ensures ParseUnits("1", decimals).Some? ==> ParseUnits("1", decimals).value == Pow10(decimals)
  {
    assert Value("1") == 1 by { assert "1"[..0] == []; }
    assert PointIndex("1") == 1;
  }

  lemma OneUnitPrintsAsOne(decimals: nat)
    requires UnitDivisor(decimals) > 0
    ensures FormatTokenAmount(UnitDivisor(decimals), decimals) == Some("1")
  {
    QuotientIsUnique(UnitDivisor(decimals), UnitDivisor(decimals), 1);
    assert Digits(1) == "1";
  }

  /** No leading zero, no bare point, no trailing zero after the point, at most `decimals` places. */
  ghost predicate Canonical(text: string, decimals: nat) {
    var point := PointIndex(text);
    && 0 < point
    && IsDigits(text[..point])
    && (text[0] == '0' ==> point == 1)
    && (point < |text| ==>
          && IsDigits(text[point + 1..])
          && 1 <= |text| - point - 1 <= decimals
          && text[|text| - 1] != '0')
  }

  lemma PrintedFormIsCanonical(amount: nat, decimals: nat)
    requires decimals <= 19
    ensures var text := FormatTokenAmount(amount, decimals); text.Some? && Canonical(text.value, decimals)
  {
    CoreIsPlain(amount, decimals);
    var divisor := Pow10(decimals);
    var whole, remainder := Quotient(amount, divisor), Remainder(amount, divisor);
    ValueOfDigits(whole);
    if whole == 0 { assert Digits(0) == "0"; }
    if remainder == 0 {
      PointAfterDigits(Digits(whole), "");
    } else {
      FractionText(remainder, decimals);
      JoinedIsCanonical(Digits(whole), TrimTrailingZeros(PadLeft(Digits(remainder), decimals)), decimals);
    }
  }

  lemma JoinedIsCanonical(w: string, t: string, decimals: nat)
    requires IsDigits(w) && w != [] && (w[0] == '0' ==> |w| == 1)
    requires IsDigits(t) && t != [] && t[|t| - 1] != '0' && |t| <= decimals
    ensures Canonical(w + "." + t, decimals)
  {
    PointAfterDigits(w, t);
    var text := w + "." + t;
    assert text[..|w|] == w && text[|w| + 1..] == t;
  }

  lemma PrintingIsInjective(a: nat, b: nat, decimals: nat)
    requires a < TWO_TO_THE_256 && b < TWO_TO_THE_256 && decimals <= 19
    requires FormatTokenAmount(a, decimals) == FormatTokenAmount(b, decimals)
    ensures a == b
  {
    PrintedAmountsReadBack(decimals);
    assert ReadsBack(decimals);
  }

  /** From 64 decimals on the power of ten is a multiple of 2^64. */
  lemma {:induction false} PowerIsMultiple(decimals: nat) returns (q: nat)
    requires decimals >= 64
    ensures Pow10(decimals) == q * TWO_TO_THE_64
  {
    if decimals == 64 {
      assert Pow10(8) == 1_0000_0000;
      Pow10Adds(8, 8);
      Pow10Adds(16, 16);
      Pow10Adds(32, 32);
      q := 542101086242752217003726400434970855712890625;
    } else {
      var p := PowerIsMultiple(decimals - 1);
      q := 10 * p;
    }
  }

  /** 10^63 is an odd number times 2^63, so it is no multiple of 2^64. */
  lemma Pow10At63()
    ensures UnitDivisor(63) != 0
  {
    assert Pow10(7) == 1_0000000;
    var n: nat := 7;
    assert Pow10(n + n) == 1_0000000_0000000 by {
      Pow10Adds(n, n);
    }
    assert Pow10(n + n + n) == 1_0000000_0000000_0000000 by {
      Pow10Adds(n + n, n);
    }
    var m: nat := 21;
    assert Pow10(m + m) == 1_0000000_0000000_0000000_0000000_0000000_0000000 by {
      Pow10Adds(m, m);
    }
    Pow10Adds(m + m, m);
  }

  /** A larger power of ten is a multiple of a smaller one. */
  lemma ZeroDivisorStays(decimals: nat, more: nat)
    requires UnitDivisor(decimals) == 0
    ensures UnitDivisor(decimals + more) == 0
  {
    Pow10Adds(decimals, more);
    var q := Pow10(decimals) / TWO_TO_THE_64;
    assert Pow10(decimals) == q * TWO_TO_THE_64;
    assert Pow10(decimals + more) == (q * Pow10(more)) * TWO_TO_THE_64;
    RemainderOfMultiple(q * Pow10(more));
  }

  lemma RemainderOfMultiple(q: nat)
    ensures q * TWO_TO_THE_64 % TWO_TO_THE_64 == 0
  {
  }

  /** The 64-bit divisor is zero, and the core printer panics, exactly from 64 decimals on. */
  lemma DivisorWrapsToZero(decimals: nat)
    ensures UnitDivisor(decimals) == 0 <==> decimals >= 64
    ensures (forall amount: nat :: FormatTokenAmount(amount, decimals).None?) <==> decimals >= 64
  {
    if decimals >= 64 {
      var q := PowerIsMultiple(decimals);
    } else if UnitDivisor(decimals) == 0 {
      ZeroDivisorStays(decimals, 63 - decimals);
      Pow10At63();
    } else {
      assert FormatTokenAmount(0, decimals).Some?;
    }
  }

  /** The two printers agree on every 256-bit balance: exactly up to 19 decimals. */
  ghost predicate PrintersAgree(decimals: nat) {
    forall amount: nat :: amount < TWO_TO_THE_256 ==>
      FormatTokenAmount(amount, decimals) == CliFormat(amount, decimals)
  }

  lemma PrintersAgreeUpTo19(decimals: nat)
    ensures PrintersAgree(decimals) <==> decimals <= 19
  {
    if decimals <= 19 {
      forall amount: nat | amount < TWO_TO_THE_256
        ensures FormatTokenAmount(amount, decimals) == CliFormat(amount, decimals)
      {
        CoreIsPlain(amount, decimals);
        CliIsPlain(amount, decimals);
      }
    } else if decimals >= 64 {
      DivisorWrapsToZero(decimals);
      assert CliFormat(0, decimals) == Some("0");
    } else {
      // Agreement would make the core printer read back.
      if PrintersAgree(decimals) {
        forall amount: nat | amount < TWO_TO_THE_256
          ensures var text := FormatTokenAmount(amount, decimals);
            text.Some? && ParseUnits(text.value, decimals) == Some(amount)
        {
          CliIsPlain(amount, decimals);
          PlainTextReadsBack(amount, decimals);
        }
        assert ReadsBack(decimals);
        PrintedAmountsReadBack(decimals);
      }
    }
  }

  // ---- The token fields of the configuration file --------------------------

  datatype TokenConfig = TokenConfig(minBalance: nat, topUpAmount: nat, decimals: nat)

  /** The three text fields as written; `decimals` may be absent when read. */
  datatype TokenFields = TokenFields(minBalance: string, topUpAmount: string, decimals: Option<nat>)

  function SerializeToken(c: TokenConfig): Option<TokenFields> {
    var minBalance := FormatTokenAmount(c.minBalance, c.decimals);
    var topUpAmount := FormatTokenAmount(c.topUpAmount, c.decimals);
    if minBalance.None? || topUpAmount.None? then None
    else Some(TokenFields(minBalance.value, topUpAmount.value, Some(c.decimals)))
  }

  /** An unreadable amount silently becomes zero; absent decimals become 18. */
  function DeserializeToken(f: TokenFields): TokenConfig {
    var decimals := if f.decimals.Some? then f.decimals.value else 18;
    TokenConfig(AmountOrZero(f.minBalance, decimals), AmountOrZero(f.topUpAmount, decimals), decimals)
  }

  function AmountOrZero(text: string, decimals: nat): nat {
    var parsed := ParseUnits(text, decimals);
    if parsed.Some? then parsed.value else 0
  }

  /** Fields without decimals are read as if they said 18. */
  lemma MissingDecimalsAreEighteen(f: TokenFields)
    requires f.decimals.None?
    ensures DeserializeToken(f) == DeserializeToken(TokenFields(f.minBalance, f.topUpAmount, Some(18)))
    ensures DeserializeToken(f).decimals == 18
    ensures forall amount: string :: ParseUnits(amount, 18).Some? && amount == f.minBalance ==>
              DeserializeToken(f).minBalance == ParseUnits(amount, 18).value
    ensures forall amount: string :: ParseUnits(amount, 18).Some? && amount == f.topUpAmount ==>
              DeserializeToken(f).topUpAmount == ParseUnits(amount, 18).value
  {
  }

  lemma CutsOff(w: string, rest: string, decimals: nat)
    requires IsDigits(w) && IsDigits(rest) && w != [] && |rest| > decimals && decimals <= 77
    ensures ParseUnits(w + "." + rest, decimals) == FitsU256(Value((w + rest)[..|w| + decimals]))
  {
    var text := w + "." + rest;
    PointAfterDigits(w, rest);
    assert text[..|w|] + text[|w| + 1..] == w + rest;
  }

  /** Fraction digits that the decimals leave no room for are cut off, not rounded. */
  lemma SurplusDigitsAreCutOff(w: string, t: string, surplus: string, decimals: nat)
    requires IsDigits(w) && IsDigits(t) && IsDigits(surplus) && w != [] && |t| == decimals <= 77
    ensures ParseUnits(w + "." + (t + surplus), decimals) == FitsU256(Value(w + t))
  {
    if surplus == [] {
      ReadsJoined(w, t, decimals);
      assert t + surplus == t && Pow10(0) == 1;
    } else {
      CutsOff(w, t + surplus, decimals);
      assert (w + (t + surplus))[..|w| + decimals] == w + t;
    }
  }

  /** Text with anything but digits and one point is read as zero, and so is any text at more than 77 decimals. */
  lemma UnreadableIsZero(text: string, decimals: nat, k: nat)
    requires decimals > 77 || (k < |text| && text[k] != '.' && !IsDigit(text[k]))
    ensures AmountOrZero(text, decimals) == 0
  {
    if decimals <= 77 {
      var point := PointIndex(text);
      var joined := if point == |text| then text else text[..point] + text[point + 1..];
      var at := if k < point then k else if point == |text| then k else k - 1;
      assert joined[at] == text[k];
    }
  }

  ghost predicate ConfigSurvives(c: TokenConfig) {
    var fields := SerializeToken(c);
    fields.Some? && DeserializeToken(fields.value) == c
  }

  /** Every 256-bit token configuration survives a save and a load exactly up to 19 decimals. */
  lemma TokenConfigRoundTrip(decimals: nat)
    ensures (forall min: nat, top: nat :: min < TWO_TO_THE_256 && top < TWO_TO_THE_256 ==>
               ConfigSurvives(TokenConfig(min, top, decimals)))
            <==> decimals <= 19
  {
    PrintedAmountsReadBack(decimals);
    if decimals > 19 {
      SmallDivisorsAreExact(decimals);
      var amount := UnitDivisor(decimals);
      var c := TokenConfig(amount, amount, decimals);
      assert amount < TWO_TO_THE_64 < TWO_TO_THE_256;
      if amount > 0 {
        OneUnitPrintsAsOne(decimals);
        OneReadsAsThePower(decimals);
        assert !ConfigSurvives(c);
      } else {
        assert !ConfigSurvives(c);
      }
    } else {
      assert ReadsBack(decimals);
    }
  }
}
