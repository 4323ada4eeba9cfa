/**
 * `Number.prototype.toFixed(1)` applied to an exact real: the nearest tenth
 * (the larger one on a tie), written as integer digits, a point and one
 * digit, after a minus sign when the value is negative.
 */
module Fixed {
  import opened Chars

  /** The `n` for which `n / 10` is nearest to `x`, the larger one on a tie. */
  function NearestTenths(x: real): (n: nat)
    requires x >= 0.0
    ensures n as real - 0.5 <= x * 10.0 < n as real + 0.5
  {
    (x * 10.0 + 0.5).Floor
  }

  function Unsigned(x: real): (s: string)
    requires x >= 0.0
    ensures 3 <= |s|
    ensures s[0] == '0' ==> s[1] == '.'
  {
    var n := NearestTenths(x);
    NatToString(n / 10) + "." + [DigitChar(n % 10)]
  }

  /** `x.toFixed(1)`. */
  function ToFixed1(x: real): (s: string)
    ensures 3 <= |s|
    ensures s[0] == '-' <==> x < 0.0
    ensures s[0] == '0' ==> s[1] == '.'
  {
    if x < 0.0 then "-" + Unsigned(-x) else Unsigned(x)
  }

  /** Digits, a point, one digit. */
  predicate IsFixed1(s: string)
  {
    && 3 <= |s|
    && All(s[..|s| - 2], IsDigit)
    && s[|s| - 2] == '.'
    && IsDigit(s[|s| - 1])
  }

  /** The number a string of the form digits "." digit denotes. */
  function FixedValue(s: string): real
    requires IsFixed1(s)
  {
    DigitsValue(s[..|s| - 2]) as real + DigitValue(s[|s| - 1]) as real / 10.0
  }

  /**
   * For a non-negative value the rendering reads back as a whole number of
   * tenths within half a tenth of the value.
   */
  lemma {:induction false} ToFixed1IsNearestTenth(x: real)
    requires x >= 0.0
    ensures IsFixed1(ToFixed1(x))
    ensures (FixedValue(ToFixed1(x)) * 10.0).Floor as real == FixedValue(ToFixed1(x)) * 10.0
    ensures -0.05 < FixedValue(ToFixed1(x)) - x <= 0.05
  {
    var n := NearestTenths(x);
    var s := ToFixed1(x);
    var whole := NatToString(n / 10);
    assert s == whole + "." + [DigitChar(n % 10)];
    assert s[..|s| - 2] == whole;
    DigitsValueOfNatToString(n / 10);
    assert FixedValue(s) == (n / 10) as real + (n % 10) as real / 10.0;
    assert FixedValue(s) * 10.0 == n as real;
  }
}
