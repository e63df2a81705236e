/** The two interval parsers: rate-limit windows and cron schedules. */
module Intervals {
  import opened Prelude
  import opened Decimal
  import opened Text

  predicate IsAscii(s: string) {
    forall i :: 0 <= i < |s| ==> s[i] as int < 128
  }

  /** Unsigned integer text below a bound: digits with an optional plus sign. */
  function ParseUnsigned(s: string, bound: nat): Option<nat> {
    var digits := if s != [] && s[0] == '+' then s[1..] else s;
    if digits == [] || !IsDigits(digits) || Value(digits) >= bound then None else Some(Value(digits))
  }

  function Init(s: string): string
    requires s != []
  {
    s[..|s| - 1]
  }

  function Last(s: string): char
    requires s != []
  {
    s[|s| - 1]
  }

  /** The rate limiter's window length: minutes wrap at 32 bits, zero becomes one, junk becomes 60. */
  function ParseInterval(interval: string): (seconds: nat)
    ensures 1 <= seconds < TWO_TO_THE_32
  {
    var t := Trim(interval);
    if t == "second" || t == "seconds" then 1
    else if t == "minute" || t == "minutes" then 60
    else if t == [] then 60
    else if Last(t) == 's' then OrSixty(ParseUnsigned(Init(t), TWO_TO_THE_32), 1)
    else if Last(t) == 'm' then OrSixty(ParseUnsigned(Init(t), TWO_TO_THE_32), 60)
    else 60
  }

  function OrSixty(parsed: Option<nat>, factor: nat): (seconds: nat)
    ensures 1 <= seconds < TWO_TO_THE_32
  {
    if parsed.None? then 60 else Max(parsed.value * factor % TWO_TO_THE_32, 1)
  }

  /** A number and one letter, whatever white space is around them. */
  lemma PaddedUnit(before: string, n: nat, unit: char, after: string)
    requires Blank(before) && Blank(after) && !IsWhitespace(unit)
    ensures Trim(before + (Digits(n) + [unit]) + after) == Digits(n) + [unit]
  {
    ValueOfDigits(n);
    var t := Digits(n) + [unit];
    assert IsDigit(t[0]) && !IsWhitespace(t[0]) && !IsWhitespace(t[|t| - 1]);
    TrimDropsPadding(before, t, after);
  }

  lemma DigitsParse(n: nat, bound: nat)
    ensures ParseUnsigned(Digits(n), bound) == if n < bound then Some(n) else None
  {
    ValueOfDigits(n);
    assert IsDigit(Digits(n)[0]);
  }

  /** The words for one unit, padded or not. */
  lemma WordsAreOneUnit(before: string, word: string, after: string)
    requires Blank(before) && Blank(after) && word in ["second", "seconds", "minute", "minutes"]
    ensures ParseInterval(before + word + after) == if word[0] == 's' then 1 else 60
  {
    assert !IsWhitespace(word[0]) && !IsWhitespace(word[|word| - 1]);
    TrimDropsPadding(before, word, after);
  }

  lemma MinuteIsSixty()
    ensures ParseInterval("minute") == 60
  {
    WordsAreOneUnit("", "minute", "");
    assert "" + "minute" + "" == "minute";
  }

  /** The value of a number with a unit letter. */
  function WindowOf(n: nat, unit: char): nat {
    if unit !in "sm" || n >= TWO_TO_THE_32 then 60
    else if unit == 's' then Max(n, 1)
    else Max(n * 60 % TWO_TO_THE_32, 1)
  }

  lemma NumberByUnit(n: nat, unit: char)
    ensures WindowOf(n, unit) ==
            if unit == 's' then OrSixty(ParseUnsigned(Digits(n), TWO_TO_THE_32), 1)
            else if unit == 'm' then OrSixty(ParseUnsigned(Digits(n), TWO_TO_THE_32), 60)
            else 60
  {
    DigitsParse(n, TWO_TO_THE_32);
  }

  lemma ReadsTrimmed(interval: string, n: nat, unit: char)
    requires Trim(interval) == Digits(n) + [unit]
    ensures ParseInterval(interval) == WindowOf(n, unit)
  {
    var t := Trim(interval);
    assert t != [] && IsDigit(t[0]) by {
      ValueOfDigits(n);
    }
    assert Init(t) == Digits(n) && Last(t) == unit;
    NumberByUnit(n, unit);
  }

  /**
   What the rate limiter reads: n seconds or n minutes, at least one second, the
   minutes wrapping at 32 bits, a number beyond 32 bits being one minute; and one
   minute for a number with any other letter.
   */
  lemma ParseIntervalReads(before: string, n: nat, unit: char, after: string)
    requires Blank(before) && Blank(after) && !IsWhitespace(unit)
    ensures ParseInterval(before + (Digits(n) + [unit]) + after) == WindowOf(n, unit)
  {
    PaddedUnit(before, n, unit, after);
    ReadsTrimmed(before + (Digits(n) + [unit]) + after, n, unit);
  }

  datatype CronIntervalError = MissingAmountOrUnit | NotAWholeNumber | ZeroInterval | UnknownUnit

  /** Seconds per unit letter; None for a letter that is no unit. */
  function UnitSeconds(unit: char): Option<nat> {
    match unit
    case 's' => Some(1)
    case 'm' => Some(60)
    case 'h' => Some(60 * 60)
    case 'd' => Some(60 * 60 * 24)
    case 'w' => Some(60 * 60 * 24 * 7)
    case _ => None
  }

  /** The cron schedule parser; the product wraps at 64 bits. */
  function ParseCronInterval(interval: string): Result<nat, CronIntervalError> {
    var t := Trim(interval);
    if |t| < 2 || !IsAscii(t) then Err(MissingAmountOrUnit)
    else
      var amount := ParseUnsigned(Init(t), TWO_TO_THE_64);
      if amount.None? then Err(NotAWholeNumber)
      else if amount.value == 0 then Err(ZeroInterval)
      else
        var unit := UnitSeconds(Last(t));
        if unit.None? then Err(UnknownUnit) else Ok(Remainder(amount.value * unit.value, TWO_TO_THE_64))
  }

  /** The amount and unit letter behind an interval the cron parser accepts. */
  function CronAmount(interval: string): nat
    requires ParseCronInterval(interval).Ok?
  {
    ParseUnsigned(Init(Trim(interval)), TWO_TO_THE_64).value
  }

  function CronUnit(interval: string): char
    requires ParseCronInterval(interval).Ok?
  {
    Last(Trim(interval))
  }

  /**
   On an interval both can express without wrapping, the two parsers agree
   exactly for seconds and minutes; the rate limiter reads hours, days and
   weeks as one minute.
   */
  lemma ParsersAgreeOnSecondsAndMinutes(interval: string)
    requires ParseCronInterval(interval).Ok?
    requires CronAmount(interval) * UnitSeconds(CronUnit(interval)).value < TWO_TO_THE_32
    ensures ParseCronInterval(interval) == Ok(ParseInterval(interval)) <==> CronUnit(interval) in "sm"
    ensures CronUnit(interval) !in "sm" ==> ParseInterval(interval) == 60
  {
    var t := Trim(interval);
    if CronUnit(interval) in "sm" {
      assert CronAmount(interval) < TWO_TO_THE_32;
      assert ParseUnsigned(Init(t), TWO_TO_THE_32) == Some(CronAmount(interval));
    }
  }

  lemma NumberWithUnit(n: nat, unit: char)
    requires unit as int < 128 && !IsWhitespace(unit)
    ensures var t := Digits(n) + [unit]; |t| >= 2 && IsAscii(t) && Trim(t) == t
  {
    ValueOfDigits(n);
    var t := Digits(n) + [unit];
    assert IsDigit(t[0]) && t[|t| - 1] == unit;
    assert forall i :: 0 <= i < |t| ==> t[i] == unit || IsDigit(t[i]);
  }

  /** A number and one letter, as the cron parser sees it. */
  lemma CronReadsNumber(n: nat, unit: char)
    requires unit as int < 128 && !IsWhitespace(unit)
    ensures var t := Digits(n) + [unit];
      && Trim(t) == t && |t| >= 2 && IsAscii(t) && Last(t) == unit
      && ParseUnsigned(Init(t), TWO_TO_THE_64) == if n < TWO_TO_THE_64 then Some(n) else None
  {
    NumberWithUnit(n, unit);
    DigitsParse(n, TWO_TO_THE_64);
    assert Init(Digits(n) + [unit]) == Digits(n);
  }

  /**
   What the cron parser reads: n seconds, minutes, hours, days or weeks as so many
   seconds, at 64 bits; no other ASCII letter, and no zero, is an interval.
   */
  lemma CronIntervalReads(n: nat, unit: char)
    requires n < 0x1_0000_0000_0000_0000 && unit as int < 128 && !IsWhitespace(unit)
    ensures ParseCronInterval(Digits(n) + [unit]) ==
            if n == 0 then Err(ZeroInterval)
            else match unit
              case 's' => Ok(n)
              case 'm' => Ok(Remainder(n * 60, TWO_TO_THE_64))
              case 'h' => Ok(Remainder(n * 3600, TWO_TO_THE_64))
              case 'd' => Ok(Remainder(n * 86400, TWO_TO_THE_64))
              case 'w' => Ok(Remainder(n * 604800, TWO_TO_THE_64))
              case _ => Err(UnknownUnit)
  {
    CronReadsNumber(n, unit);
    QuotientIsUnique(n, TWO_TO_THE_64, 0);
  }

  lemma PlusDigitsParse(n: nat, bound: nat)
    ensures ParseUnsigned("+" + Digits(n), bound) == ParseUnsigned(Digits(n), bound)
  {
    ValueOfDigits(n);
    assert ("+" + Digits(n))[1..] == Digits(n);
    assert IsDigit(Digits(n)[0]);
  }

  lemma PlusNumberWithUnit(n: nat, unit: char)
    requires unit as int < 128 && !IsWhitespace(unit)
    ensures var t := "+" + (Digits(n) + [unit]);
      Trim(t) == t && |t| >= 2 && IsAscii(t) && Last(t) == unit && Init(t) == "+" + Digits(n)
  {
    NumberWithUnit(n, unit);
  }

  lemma PlusIsIgnoredByTheLimiter(n: nat, unit: char)
    requires unit as int < 128 && !IsWhitespace(unit)
    ensures ParseInterval("+" + (Digits(n) + [unit])) == WindowOf(n, unit)
  {
    var t := "+" + (Digits(n) + [unit]);
    PlusNumberWithUnit(n, unit);
    PlusDigitsParse(n, TWO_TO_THE_32);
    assert t[0] == '+';
    assert t != "second" && t != "seconds" && t != "minute" && t != "minutes";
    NumberByUnit(n, unit);
  }

  /** A plus sign before the number changes nothing, for either parser. */
  lemma PlusSignIsIgnored(n: nat, unit: char)
    requires unit as int < 128 && !IsWhitespace(unit)
    ensures ParseCronInterval("+" + (Digits(n) + [unit])) == ParseCronInterval(Digits(n) + [unit])
    ensures ParseInterval("+" + (Digits(n) + [unit])) == ParseInterval(Digits(n) + [unit])
  {
    PlusNumberWithUnit(n, unit);
    CronReadsNumber(n, unit);
    PlusDigitsParse(n, TWO_TO_THE_64);
    assert Init("+" + (Digits(n) + [unit])) == "+" + Digits(n) && Init(Digits(n) + [unit]) == Digits(n);
    PlusIsIgnoredByTheLimiter(n, unit);
    ReadsTrimmed(Digits(n) + [unit], n, unit);
  }

  /** Text that is no number with an s or m is one minute to the rate limiter, whatever it is. */
  lemma JunkIsAMinute(interval: string)
    requires var t := Trim(interval);
      && t !in ["second", "seconds"]
      && (t == [] || Last(t) !in "sm" || ParseUnsigned(Init(t), 0x1_0000_0000) == None)
    ensures ParseInterval(interval) == 60
  {
  }

  /** The cron parser refuses text that is too short or not ASCII before it looks for a number. */
  lemma CronRefusesFirst(interval: string)
    ensures ParseCronInterval(interval) == Err(MissingAmountOrUnit) <==>
            var t := Trim(interval);
            |t| <= 1 || exists i :: 0 <= i < |t| && t[i] as int >= 128
    ensures ParseCronInterval(interval) == Err(NotAWholeNumber) ==>
            ParseUnsigned(Init(Trim(interval)), 0x1_0000_0000_0000_0000) == None
  {
  }

  lemma MultiplesVanish(k: nat, m: nat)
    requires m > 0
    ensures k * m % m == 0
  {
    QuotientIsUnique(k * m, m, k);
  }

  /** Sufficiently large amounts wrap: a whole family of accepted schedules has a zero interval. */
  lemma AcceptedScheduleCanBeZero(k: nat, weeks: nat)
    requires 0 < k < 128 && weeks == k * 0x200_0000_0000_0000
    ensures ParseCronInterval(Digits(weeks) + "w") == Ok(0)
  {
    CronIntervalReads(weeks, 'w');
    assert Digits(weeks) + ['w'] == Digits(weeks) + "w";
    assert weeks * 604800 == (k * 4725) * TWO_TO_THE_64;
    MultiplesVanish(k * 4725, TWO_TO_THE_64);
  }

  /** An accepted interval is positive exactly when the product is not a multiple of 2^64. */
  lemma AcceptedIntervalIsPositive(interval: string)
    requires ParseCronInterval(interval).Ok?
    ensures var product := CronAmount(interval) * UnitSeconds(CronUnit(interval)).value;
      && (ParseCronInterval(interval).value > 0 <==> product % TWO_TO_THE_64 != 0)
      && (product < TWO_TO_THE_64 ==> ParseCronInterval(interval).value == product > 0)
  {
    var amount := CronAmount(interval);
    assert UnitSeconds(CronUnit(interval)).value >= 1;
    assert amount > 0;
    assert amount * UnitSeconds(CronUnit(interval)).value >= amount;
  }
}
