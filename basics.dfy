/** Values shared by every module of the model. */
module Basics {

  /** Python's `None` or a present value. */
  datatype Option<+T> = None | Some(value: T)

  /** An ASCII decimal digit, what `\d` and `str(int)` produce here. */
  predicate IsDigit(c: char) {
    '0' <= c <= '9'
  }

  predicate AllDigits(s: string) {
    forall i :: 0 <= i < |s| ==> IsDigit(s[i])
  }

  /** The value of a decimal digit character. */
  function DigitValue(c: char): (d: nat)
    requires IsDigit(c)
    ensures d < 10
  {
    c as int - '0' as int
  }

  /** The value of a string of decimal digits (`int(s)` for a digit string; 0 for ""). */
  function DigitsValue(s: string): nat
    requires AllDigits(s)
  {
    if s == [] then 0 else DigitsValue(s[..|s| - 1]) * 10 + DigitValue(s[|s| - 1])
  }

  function Pow10(k: nat): (p: nat)
    ensures p >= 1
  {
    if k == 0 then 1 else 10 * Pow10(k - 1)
  }

  /** A string of k digits never denotes 10^k or more. */
  lemma {:induction false} DigitsValueBound(s: string)
    requires AllDigits(s)
    ensures DigitsValue(s) < Pow10(|s|)
  {
    if s != [] {
      var init := s[..|s| - 1];
      assert AllDigits(init);
      DigitsValueBound(init);
      assert DigitsValue(init) + 1 <= Pow10(|init|);
      calc {
        DigitsValue(s);
      ==
        DigitsValue(init) * 10 + DigitValue(s[|s| - 1]);
      <
        DigitsValue(init) * 10 + 10;
      ==
        (DigitsValue(init) + 1) * 10;
      <=
        Pow10(|init|) * 10;
      }
    }
  }

  function Abs(x: real): (r: real)
    ensures r >= 0.0 && (r == x || r == -x)
  {
    if x < 0.0 then -x else x
  }
}
