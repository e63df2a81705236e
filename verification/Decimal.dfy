/** Decimal digit strings: printing, reading, padding and trimming zeros. */
module Decimal {

  predicate IsDigit(c: char) {
    '0' <= c <= '9'
  }

  predicate IsDigits(s: string) {
    forall i :: 0 <= i < |s| ==> IsDigit(s[i])
  }

  function DigitValue(c: char): nat
    requires IsDigit(c)
  {
    c as int - '0' as int
  }

  function DigitChar(d: nat): (c: char)
    requires d < 10
    ensures IsDigit(c) && DigitValue(c) == d
  {
    (d + '0' as int) as char
  }

  /** The number a digit string denotes; the empty string denotes zero. */
  function Value(s: string): nat
    requires IsDigits(s)
  {
    if s == [] then 0 else 10 * Value(s[..|s| - 1]) + DigitValue(s[|s| - 1])
  }

  /** The shortest decimal form of a number. */
  function Digits(n: nat): string {
    if n < 10 then [DigitChar(n)] else Digits(n / 10) + [DigitChar(n % 10)]
  }

  function Pow10(e: nat): (p: nat)
    ensures p > 0
  {
    if e == 0 then 1 else 10 * Pow10(e - 1)
  }

  function Zeros(n: nat): (z: string)
    ensures |z| == n && IsDigits(z) && forall i :: 0 <= i < n ==> z[i] == '0'
  {
    seq(n, _ => '0')
  }

  /** Zero-padding to a minimum width. */
  function PadLeft(s: string, width: nat): string {
    if |s| < width then Zeros(width - |s|) + s else s
  }

  function TrimTrailingZeros(s: string): string {
    if s != [] && s[|s| - 1] == '0' then TrimTrailingZeros(s[..|s| - 1]) else s
  }

  lemma {:induction false} ValueOfDigits(n: nat)
    ensures IsDigits(Digits(n)) && Digits(n) != [] && Value(Digits(n)) == n
    ensures Digits(n)[0] == '0' ==> n == 0
  {
    if n >= 10 {
      ValueOfDigits(n / 10);
      var s := Digits(n);
      assert s[..|s| - 1] == Digits(n / 10);
      assert s[|s| - 1] == DigitChar(n % 10);
      assert s[0] == Digits(n / 10)[0];
    } else {
      var s := Digits(n);
      assert s[..|s| - 1] == [];
    }
  }

  lemma {:induction false} DigitsFit(n: nat, k: nat)
    requires n < Pow10(k) && k > 0
    ensures |Digits(n)| <= k
  {
    if n >= 10 {
      assert k > 1;
      DigitsFit(n / 10, k - 1);
    }
  }

  lemma {:induction false} ValueOfConcat(a: string, b: string)
    requires IsDigits(a) && IsDigits(b)
    ensures IsDigits(a + b) && Value(a + b) == Value(a) * Pow10(|b|) + Value(b)
  {
    if b == [] {
      assert a + b == a;
    } else {
      var b' := b[..|b| - 1];
      ValueOfConcat(a, b');
      assert (a + b)[..|a + b| - 1] == a + b';
      assert Pow10(|b|) == 10 * Pow10(|b'|);
      calc {
        Value(a) * Pow10(|b|);
        Value(a) * (10 * Pow10(|b'|));
        10 * (Value(a) * Pow10(|b'|));
      }
    }
  }

  lemma {:induction false} ValueOfZeros(n: nat)
    ensures Value(Zeros(n)) == 0
  {
    if n > 0 {
      assert Zeros(n)[..n - 1] == Zeros(n - 1);
      ValueOfZeros(n - 1);
    }
  }

  lemma ValueOfPadded(s: string, width: nat)
    requires IsDigits(s)
    ensures IsDigits(PadLeft(s, width)) && Value(PadLeft(s, width)) == Value(s)
    ensures |PadLeft(s, width)| == if |s| < width then width else |s|
  {
    if |s| < width {
      ValueOfZeros(width - |s|);
      ValueOfConcat(Zeros(width - |s|), s);
    }
  }

  /** Trimming k zeros divides the number by 10^k exactly. */
  lemma {:induction false} ValueOfTrimmed(s: string)
    requires IsDigits(s)
    ensures var t := TrimTrailingZeros(s);
      && IsDigits(t) && |t| <= |s| && Value(s) == Value(t) * Pow10(|s| - |t|)
      && (t != [] ==> t[|t| - 1] != '0') && (Value(s) > 0 ==> t != [])
  {
    if s != [] && s[|s| - 1] == '0' {
      var s' := s[..|s| - 1];
      ValueOfTrimmed(s');
      var t := TrimTrailingZeros(s);
      var k := |s'| - |t|;
      calc {
        Value(s);
        10 * Value(s');
        10 * (Value(t) * Pow10(k));
        Value(t) * (10 * Pow10(k));
        Value(t) * Pow10(k + 1);
      }
    }
  }

  lemma {:induction false} Pow10Adds(a: nat, b: nat)
    ensures Pow10(a + b) == Pow10(a) * Pow10(b)
  {
    if a > 0 {
      Pow10Adds(a - 1, b);
    }
  }

  lemma {:induction false} Pow10Grows(a: nat, b: nat)
    requires a <= b
    ensures Pow10(a) <= Pow10(b)
  {
    if a < b {
      Pow10Grows(a, b - 1);
    }
  }
}
