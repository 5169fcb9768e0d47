/** Decimal rendering of a non-negative integer (JavaScript `Number.prototype.toString`)
    and the reading back of a digit string. */
module Decimal {

  predicate IsDigit(c: char) {
    '0' <= c <= '9'
  }

  predicate AllDigits(s: string) {
    forall i :: 0 <= i < |s| ==> IsDigit(s[i])
  }

  function DigitChar(d: nat): (c: char)
    requires d < 10
    ensures IsDigit(c) && c as int - '0' as int == d
  {
    ('0' as int + d) as char
  }

  /** `n.toString()`: the shortest decimal numeral of `n`. */
  function ToDecimal(n: nat): (r: string)
    ensures |r| >= 1 && AllDigits(r)
    ensures |r| == 1 <==> n < 10
    ensures 10 <= n < 100 ==> |r| == 2
    ensures |r| > 1 ==> r[0] != '0'
    decreases n
  {
    if n < 10 then [DigitChar(n)]
    else ToDecimal(n / 10) + [DigitChar(n % 10)]
  }

  /** The value of a digit string, most significant digit first. */
  function FromDecimal(s: string): nat
    requires AllDigits(s)
    decreases |s|
  {
    if s == [] then 0
    else FromDecimal(s[..|s| - 1]) * 10 + (s[|s| - 1] as int - '0' as int)
  }

  /** Reading a rendered numeral gives back the number. */
  lemma {:induction false} FromToDecimal(n: nat)
    ensures FromDecimal(ToDecimal(n)) == n
    decreases n
  {
    var r := ToDecimal(n);
    if n >= 10 {
      assert r[..|r| - 1] == ToDecimal(n / 10);
      FromToDecimal(n / 10);
    } else {
      assert r[..|r| - 1] == [];
    }
  }

  /** A leading zero does not change the value of a one-digit string. */
  lemma LeadingZero(s: string)
    requires |s| == 1 && AllDigits(s)
    ensures FromDecimal("0" + s) == FromDecimal(s)
  {
    assert ("0" + s)[..1] == "0";
    assert "0"[..0] == [] && s[..0] == [];
  }
}
