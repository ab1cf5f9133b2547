/** Small shared helpers: an optional value and the decimal rendering of a
    natural number (the `Number.prototype.toString()` used for message ids). */
module Common {

  /** A value that may be missing (`undefined` / `null` in the application). */
  datatype Option<+T> = None | Some(value: T)

  const Digits: string := "0123456789"

  /** The number a string of decimal digits spells, most significant first. */
  function DigitsValue(s: string): nat
    requires forall i :: 0 <= i < |s| ==> s[i] in Digits
  {
    if s == [] then 0
    else DigitsValue(s[..|s| - 1]) * 10 + DigitValue(s[|s| - 1])
  }

  /** The value of one decimal digit: its position in `Digits`. */
  function DigitValue(c: char): (d: nat)
    requires c in Digits
    ensures d < 10 && Digits[d] == c
  {
    if c == '0' then 0 else if c == '1' then 1 else if c == '2' then 2
    else if c == '3' then 3 else if c == '4' then 4 else if c == '5' then 5
    else if c == '6' then 6 else if c == '7' then 7 else if c == '8' then 8
    else 9
  }

  /** Base-10 digits of `n`, most significant first, without leading zeros. */
  function Decimal(n: nat): (r: string)
    ensures 1 <= |r|
    ensures forall i :: 0 <= i < |r| ==> r[i] in Digits
    ensures n < 10 <==> |r| == 1
    ensures DigitsValue(r) == n
    ensures n >= 10 ==> r[0] != '0'
  {
    if n < 10 then [Digits[n]]
    else
      var r := Decimal(n / 10) + [Digits[n % 10]];
      assert r[..|r| - 1] == Decimal(n / 10);
      DigitValueOfDigit(n % 10);
      r
  }

  // Reading back the digit for `d` gives `d`.
  lemma DigitValueOfDigit(d: nat)
    requires d < 10
    ensures DigitValue(Digits[d]) == d
  {
  }

  /** Different numbers have different renderings: the rendering spells
      its number back. */
  lemma DecimalInjective(m: nat, n: nat)
    requires m != n
    ensures Decimal(m) != Decimal(n)
  {
  }
}
