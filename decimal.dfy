/** Decimal rendering of integers, as Java's Integer.toString and the "%04d"
    format produce it, together with the reading back of such a rendering. */
module Decimal {

  /** The character for a single decimal digit. */
  function Digit(d: nat): (c: char)
    requires d < 10
    ensures '0' <= c <= '9' && c as int - '0' as int == d
  {
    (d + '0' as int) as char
  }

  predicate IsDigits(s: string) {
    forall i :: 0 <= i < |s| ==> '0' <= s[i] <= '9'
  }

  /** The shortest decimal rendering of a natural number (no leading zero). */
  function Digits(n: nat): (s: string)
    ensures 1 <= |s| && IsDigits(s)
    ensures |s| > 1 ==> s[0] != '0'
  {
    if n < 10 then [Digit(n)] else Digits(n / 10) + [Digit(n % 10)]
  }

  /** The number a string of decimal digits denotes, most significant first. */
  function Value(s: string): nat
    requires IsDigits(s)
  {
    if s == [] then 0 else Value(s[..|s| - 1]) * 10 + (s[|s| - 1] as int - '0' as int)
  }

  function Pow10(k: nat): (p: nat)
    ensures p >= 1
  {
    if k == 0 then 1 else 10 * Pow10(k - 1)
  }

  function Zeros(k: nat): (s: string)
    ensures |s| == k && IsDigits(s)
    ensures forall i :: 0 <= i < k ==> s[i] == '0'
  {
    if k == 0 then [] else Zeros(k - 1) + ['0']
  }

  /** Left-pads a digit string with zeros up to the given width. */
  function PadZeros(s: string, width: nat): (r: string)
    requires IsDigits(s)
    ensures IsDigits(r)
    ensures |r| == if |s| < width then width else |s|
  {
    if |s| < width then Zeros(width - |s|) + s else s
  }

  /** Integer.toString: a minus sign for negative numbers, then the digits of the magnitude. */
  function IntToString(i: int): (s: string)
  {
    if i < 0 then "-" + Digits(-i) else Digits(i)
  }

  /** Reads back a rendering made of an optional minus sign and at least one digit. */
  predicate IsNumeral(s: string) {
    (|s| >= 1 && IsDigits(s)) || (|s| >= 2 && s[0] == '-' && IsDigits(s[1..]))
  }

  function ParseInt(s: string): int
    requires IsNumeral(s)
  {
    if s[0] == '-' then -(Value(s[1..]) as int) else Value(s)
  }

  /** String.format("%04d", n): the sign counts towards the width of four and the
      padding zeros go between the sign and the digits. */
  function Format04(n: int): (s: string)
  {
    if n < 0 then "-" + PadZeros(Digits(-n), 3) else PadZeros(Digits(n), 4)
  }

  lemma {:induction false} ValueOfDigits(n: nat)
    ensures Value(Digits(n)) == n
  {
    if n >= 10 {
      var s := Digits(n);
      assert s[..|s| - 1] == Digits(n / 10);
      ValueOfDigits(n / 10);
    }
  }

  lemma {:induction false} ValueOfZeros(k: nat)
    ensures Value(Zeros(k)) == 0
  {
    if k > 0 {
      assert Zeros(k)[..k - 1] == Zeros(k - 1);
      ValueOfZeros(k - 1);
    }
  }

  /** Leading zeros do not change the value of a digit string. */
  lemma {:induction false} LeadingZerosIgnored(k: nat, s: string)
    requires IsDigits(s)
    ensures Value(Zeros(k) + s) == Value(s)
  {
    if s == [] {
      assert Zeros(k) + s == Zeros(k);
      ValueOfZeros(k);
    } else {
      var t := Zeros(k) + s;
      assert t[..|t| - 1] == Zeros(k) + s[..|s| - 1];
      LeadingZerosIgnored(k, s[..|s| - 1]);
    }
  }

  lemma {:induction false} PaddedValue(s: string, width: nat)
    requires IsDigits(s)
    ensures Value(PadZeros(s, width)) == Value(s)
  {
    if |s| < width {
      LeadingZerosIgnored(width - |s|, s);
    }
  }

  /** The rendering has at most k digits exactly when the number is below 10^k. */
  lemma {:induction false} DigitsLength(n: nat, k: nat)
    requires k >= 1
    ensures |Digits(n)| <= k <==> n < Pow10(k)
  {
    if n >= 10 {
      if k == 1 {
        assert |Digits(n)| == |Digits(n / 10)| + 1;
      } else {
        DigitsLength(n / 10, k - 1);
      }
    }
  }

  /** Integer.toString can be read back. */
  lemma IntToStringRoundTrip(i: int)
    ensures IsNumeral(IntToString(i))
    ensures ParseInt(IntToString(i)) == i
  {
    if i < 0 {
      var s := IntToString(i);
      assert s[1..] == Digits(-i);
      ValueOfDigits(-i);
    } else {
      ValueOfDigits(i);
    }
  }

  /** "%04d" of a non-negative number: four characters below 10000, otherwise all
      its digits, and in either case digits whose value is the number. */
  lemma Format04NonNegative(n: int)
    requires n >= 0
    ensures IsDigits(Format04(n))
    ensures |Format04(n)| == if n < 10000 then 4 else |Digits(n)|
    ensures Value(Format04(n)) == n
  {
    DigitsLength(n, 4);
    assert Pow10(4) == 10000;
    PaddedValue(Digits(n), 4);
    ValueOfDigits(n);
  }

  /** "%04d" of a negative number: a minus sign, then at least three digits whose
      value is the magnitude, so the whole reads back as the number. */
  lemma Format04Negative(n: int)
    requires n < 0
    ensures |Format04(n)| >= 4 && Format04(n)[0] == '-'
    ensures IsNumeral(Format04(n)) && ParseInt(Format04(n)) == n
  {
    var d := PadZeros(Digits(-n), 3);
    var s := Format04(n);
    assert s == "-" + d;
    assert s[0] == '-' && s[1..] == d;
    PaddedValue(Digits(-n), 3);
    ValueOfDigits(-n);
    assert Value(d) == -n;
  }
}
