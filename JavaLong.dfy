/**
 * Java's 64-bit `long` and the decimal conversion `Long.valueOf(String)`
 * (which is `Long.parseLong(s, 10)`), used on the remote trade ids.
 */
module JavaLong {
  import opened Wrappers

  const MinLong: int := -0x8000_0000_0000_0000
  const MaxLong: int := 0x7FFF_FFFF_FFFF_FFFF

  predicate IsLong(n: int) {
    MinLong <= n <= MaxLong
  }

  predicate IsDigit(c: char) {
    '0' <= c <= '9'
  }

  predicate AllDigits(s: string) {
    forall i :: 0 <= i < |s| ==> IsDigit(s[i])
  }

  function DigitValue(c: char): nat
    requires IsDigit(c)
  {
    c as int - '0' as int
  }

  function DigitChar(d: nat): (c: char)
    requires d < 10
    ensures IsDigit(c) && DigitValue(c) == d
  {
    ('0' as int + d) as char
  }

  /** The number a run of decimal digits denotes, most significant first (0 for no digits). */
  function DigitsValue(s: string): nat
    requires AllDigits(s)
  {
    if s == [] then 0 else DigitsValue(s[..|s| - 1]) * 10 + DigitValue(s[|s| - 1])
  }

  /**
   * `Long.valueOf(s)`: an optional leading '-' or '+', then at least one decimal
   * digit and nothing else, denoting a value in the `long` range; anything else is
   * a NumberFormatException, modelled as None.
   */
  function ParseLong(s: string): (r: Option<int>)
    ensures r.Some? ==> IsLong(r.value)
    ensures r.Some? ==> |s| > 0 && (IsDigit(s[0]) || s[0] == '-' || s[0] == '+')
    ensures r.Some? <==>
      && |s| > 0
      && var d := if s[0] == '-' || s[0] == '+' then s[1..] else s;
      && |d| > 0 && AllDigits(d)
      && IsLong(if s[0] == '-' then -(DigitsValue(d) as int) else DigitsValue(d) as int)
    ensures r.Some? ==>
      var d := if s[0] == '-' || s[0] == '+' then s[1..] else s;
      r.value == if s[0] == '-' then -(DigitsValue(d) as int) else DigitsValue(d) as int
  {
    if |s| == 0 then None
    else
      var signed := s[0] == '-' || s[0] == '+';
      var digits := if signed then s[1..] else s;
      if |digits| == 0 || !AllDigits(digits) then None
      else
        var magnitude: int := DigitsValue(digits);
        var n: int := if s[0] == '-' then -magnitude else magnitude;
        if IsLong(n) then Some(n) else None
  }

  /** Decimal digits of a natural number, without leading zeros. */
  function ShowNat(n: nat): (s: string)
    ensures |s| > 0 && AllDigits(s)
  {
    if n < 10 then [DigitChar(n)] else ShowNat(n / 10) + [DigitChar(n % 10)]
  }

  /** `Long.toString(n)`: a '-' for negative values, then the digits of the magnitude. */
  function Show(n: int): string {
    if n < 0 then "-" + ShowNat(-n) else ShowNat(n)
  }

  lemma {:induction false} ShowNatValue(n: nat)
    ensures DigitsValue(ShowNat(n)) == n
  {
    if n >= 10 {
      ShowNatValue(n / 10);
      var s := ShowNat(n);
      assert s[..|s| - 1] == ShowNat(n / 10);
    }
  }

  /** Every `long` survives printing and re-parsing. */
  lemma ParseShow(n: int)
    requires IsLong(n)
    ensures ParseLong(Show(n)) == Some(n)
  {
    var s := Show(n);
    if n < 0 {
      ShowNatValue(-n);
      assert s[1..] == ShowNat(-n);
    } else {
      ShowNatValue(n);
      assert IsDigit(s[0]);
    }
  }

  /** A value outside the `long` range, written in decimal as `Show` writes it, is rejected. */
  lemma ParseRejectsOutOfRange(n: int)
    requires !IsLong(n)
    ensures ParseLong(Show(n)) == None
  {
    var s := Show(n);
    if n < 0 {
      ShowNatValue(-n);
      assert s[1..] == ShowNat(-n);
    } else {
      ShowNatValue(n);
      assert IsDigit(s[0]);
    }
  }
}
