/**
 * Decimal text for the JWT `sub` claim. Login writes the subject as `str(user.id)`
 * and both token checkers read it back with `int(user_id)`; this module gives the
 * two conversions and proves that the second undoes the first.
 */
module Decimal {
  import opened Common

  predicate IsDigit(c: char) { '0' <= c <= '9' }

  function DigitValue(c: char): (d: nat)
    requires IsDigit(c)
    ensures d < 10
  {
    (c as int) - ('0' as int)
  }

  function DigitChar(d: nat): (c: char)
    requires d < 10
    ensures IsDigit(c) && DigitValue(c) == d
  {
    ('0' as int + d) as char
  }

  predicate AllDigits(s: string) {
    forall i :: 0 <= i < |s| ==> IsDigit(s[i])
  }

  /** The number a run of decimal digits denotes, most significant digit first. */
  function DigitsValue(s: string): nat
    requires AllDigits(s)
    decreases |s|
  {
    if s == [] then 0 else DigitsValue(s[..|s| - 1]) * 10 + DigitValue(s[|s| - 1])
  }

  /** Python's `str(n)` for a non-negative integer: no sign, no leading zeros. */
  function NatToDecimal(n: nat): (s: string)
    ensures |s| >= 1 && AllDigits(s)
    ensures |s| > 1 ==> s[0] != '0'
    decreases n
  {
    if n < 10 then [DigitChar(n)] else NatToDecimal(n / 10) + [DigitChar(n % 10)]
  }

  /** Python's `str(n)` for any integer. */
  function ToDecimal(n: int): (s: string)
    ensures |s| >= 1
    ensures s[0] == '-' <==> n < 0
    ensures n >= 0 ==> AllDigits(s)
  {
    if n < 0 then "-" + NatToDecimal(-n) else NatToDecimal(n)
  }

  /**
   * Python's `int(s)` on a string: an optional sign followed by at least one
   * ASCII digit gives that integer; anything else raises ValueError, which
   * is `None` here.
   */
  function ParseInt(s: string): (r: Option<int>)
    ensures s == [] ==> r == None
    ensures r.Some? && |s| > 0 && s[0] != '-' && s[0] != '+' ==> AllDigits(s) && r.value >= 0
    ensures forall i :: 1 <= i < |s| && !IsDigit(s[i]) ==> r == None
  {
    if |s| > 0 && (s[0] == '-' || s[0] == '+') then
      var body := s[1..];
      if |body| > 0 && AllDigits(body) then
        var v: int := DigitsValue(body);
        Some(if s[0] == '-' then -v else v)
      else None
    else if |s| > 0 && AllDigits(s) then Some(DigitsValue(s))
    else None
  }

  /** Reading back the digits `str` writes gives the number they were written from. */
  lemma {:induction false} DigitsValueOfNatToDecimal(n: nat)
    ensures DigitsValue(NatToDecimal(n)) == n
    decreases n
  {
    var s := NatToDecimal(n);
    if n < 10 {
      assert s[..|s| - 1] == [];
    } else {
      var p := NatToDecimal(n / 10);
      assert s[..|s| - 1] == p;
      DigitsValueOfNatToDecimal(n / 10);
    }
  }

  /** `int(str(n)) == n` for every integer n. */
  lemma ParseIntOfToDecimal(n: int)
    ensures ParseInt(ToDecimal(n)) == Some(n)
  {
    var s := ToDecimal(n);
    if n < 0 {
      var p := NatToDecimal(-n);
      assert s[0] == '-' && s[1..] == p;
      DigitsValueOfNatToDecimal(-n);
      assert ParseInt(s) == Some(n);
    } else {
      assert IsDigit(s[0]);
      DigitsValueOfNatToDecimal(n);
      assert ParseInt(s) == Some(DigitsValue(s));
    }
  }

  /** Different ids give different subjects, so a subject names exactly one id. */
  lemma ToDecimalInjective(m: int, n: int)
    requires ToDecimal(m) == ToDecimal(n)
    ensures m == n
  {
    ParseIntOfToDecimal(m);
    ParseIntOfToDecimal(n);
  }
}
