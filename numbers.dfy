/**
 * JavaScript numbers as the plugin meets them: the values of `Number(text)` on the
 * strings its patterns capture, and the decimal spelling of integers.
 */
module Numbers {
  import opened Text
  import opened Wrappers

  /** A JavaScript number: NaN or a finite value (the model has no infinities). */
  datatype Number = NaN | Finite(value: real)

  function DigitChar(d: nat): (c: char)
    requires d < 10
    ensures IsDigit(c)
  {
    ('0' as int + d) as char
  }

  function DigitValue(c: char): (d: nat)
    requires IsDigit(c)
    ensures d < 10 && DigitChar(d) == c
  {
    c as int - '0' as int
  }

  /** The value of a decimal digit string, most significant digit first; `""` is 0. */
  function DigitsValue(s: string): nat
    requires AllDigits(s)
  {
    if s == [] then 0 else 10 * DigitsValue(s[..|s| - 1]) + DigitValue(s[|s| - 1])
  }

  function Pow10(n: nat): (p: nat)
    ensures p >= 1
  {
    if n == 0 then 1 else 10 * Pow10(n - 1)
  }

  /** The decimal spelling of `n` that String(n) gives for a safe integer. */
  function NatToDecimal(n: nat): (s: string)
    ensures |s| >= 1 && AllDigits(s)
    ensures DigitsValue(s) == n
    ensures |s| > 1 ==> s[0] != '0'
  {
    if n < 10 then [DigitChar(n)]
    else
      var p := NatToDecimal(n / 10);
      var s := p + [DigitChar(n % 10)];
      assert s[..|s| - 1] == p;
      s
  }

  /** The spelling of an integer inside a template string: a minus sign, then the digits. */
  function IntToString(i: int): (s: string)
    ensures |s| >= 1
    ensures forall k :: 0 <= k < |s| ==> s[k] == '-' || IsDigit(s[k])
    ensures IntOfString(s) == Some(i)
  {
    if i < 0 then "-" + NatToDecimal(-i) else NatToDecimal(i)
  }

  /** Reads back what IntToString writes: an optional minus sign and at least one digit. */
  function IntOfString(s: string): Option<int> {
    if |s| >= 2 && s[0] == '-' && AllDigits(s[1..]) then Some(-(DigitsValue(s[1..]) as int))
    else if |s| >= 1 && AllDigits(s) then Some(DigitsValue(s))
    else None
  }

  /**
   * `Number(s)` for the strings of this model: an optional sign, then decimal digits with
   * at most one decimal point and at least one digit; the empty string is 0; anything else NaN.
   */
  function NumberOf(s: string): Number {
    if s == "" then Finite(0.0)
    else if s[0] == '-' then Negate(UnsignedDecimal(s[1..]))
    else if s[0] == '+' then UnsignedDecimal(s[1..])
    else UnsignedDecimal(s)
  }

  function Negate(n: Number): Number {
    match n
    case NaN => NaN
    case Finite(v) => Finite(-v)
  }

  /** Digits with at most one decimal point, at least one digit among them. */
  function UnsignedDecimal(s: string): Number {
    var k := IndexOf(s, '.');
    if k == |s| then
      if |s| > 0 && AllDigits(s) then Finite(DigitsValue(s) as real) else NaN
    else
      var whole, fraction := s[..k], s[k + 1..];
      if |whole| + |fraction| > 0 && AllDigits(whole) && AllDigits(fraction)
      then Finite(DigitsValue(whole) as real + DigitsValue(fraction) as real / Pow10(|fraction|) as real)
      else NaN
  }

  /** A digit string denotes its value. */
  lemma NumberOfDigits(s: string)
    requires |s| > 0 && AllDigits(s)
    ensures NumberOf(s) == Finite(DigitsValue(s) as real)
  {
    assert IsDigit(s[0]);
    IndexOfFirst(s, '.', |s|);
  }

  /** `Number(String(n))` is `n` for a natural number. */
  lemma NumberOfDecimal(n: nat)
    ensures NumberOf(NatToDecimal(n)) == Finite(n as real)
  {
    NumberOfDigits(NatToDecimal(n));
  }

  /** A string of digits and points with two points is not a number (for instance "1.2.3"). */
  lemma NumberOfTwoPoints(s: string, i: nat, j: nat)
    requires i < j < |s| && s[i] == '.' && s[j] == '.'
    requires s[0] != '-' && s[0] != '+'
    ensures NumberOf(s) == NaN
  {
    var k := IndexOf(s, '.');
    assert k <= i;
    assert s[k + 1..][j - k - 1] == '.';
  }

  /** A decimal with a whole part and a fraction denotes whole + fraction / 10^|fraction|. */
  lemma NumberOfPointed(whole: string, fraction: string)
    requires AllDigits(whole) && AllDigits(fraction) && |whole| > 0
    ensures NumberOf(whole + "." + fraction)
         == Finite(DigitsValue(whole) as real + DigitsValue(fraction) as real / Pow10(|fraction|) as real)
  {
    var s := whole + "." + fraction;
    assert s[0] == whole[0] && IsDigit(s[0]);
    assert NumberOf(s) == UnsignedDecimal(s);
    assert forall j :: 0 <= j < |whole| ==> s[j] != '.' by {
      forall j | 0 <= j < |whole| ensures s[j] != '.' { assert s[j] == whole[j]; assert IsDigit(whole[j]); }
    }
    assert s[|whole|] == '.';
    IndexOfFirst(s, '.', |whole|);
    assert s[..|whole|] == whole;
    assert s[|whole| + 1..] == fraction;
    assert UnsignedDecimal(s) == Finite(DigitsValue(whole) as real + DigitsValue(fraction) as real / Pow10(|fraction|) as real);
  }

  /** IndexOf finds the first occurrence (or reports none at `|s|`). */
  lemma {:induction false} IndexOfFirst(s: string, c: char, k: nat)
    requires k <= |s| && (k < |s| ==> s[k] == c)
    requires forall j :: 0 <= j < k ==> s[j] != c
    ensures IndexOf(s, c) == k
  {
    if s != [] && k > 0 {
      assert s[0] != c;
      IndexOfFirst(s[1..], c, k - 1);
    }
  }
}
