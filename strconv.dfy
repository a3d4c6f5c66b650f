/** Go's strconv.Atoi as the handlers use it to read query parameters: an
    optional sign followed by one or more decimal digits. */
module Strconv {
  import opened Common

  predicate IsDigit(c: char)
  {
    '0' <= c <= '9'
  }

  predicate AllDigits(s: string)
  {
    forall i :: 0 <= i < |s| ==> IsDigit(s[i])
  }

  /** The value of a string of decimal digits. */
  function DigitsValue(s: string): nat
    requires AllDigits(s)
  {
    if |s| == 0 then 0
    else DigitsValue(s[..|s| - 1]) * 10 + (s[|s| - 1] as int - '0' as int)
  }

  /** The text after an optional leading sign. */
  function Unsigned(s: string): (r: string)
    ensures |r| <= |s|
  {
    if |s| > 0 && (s[0] == '+' || s[0] == '-') then s[1..] else s
  }

  /** strconv.Atoi: None for a syntax error. */
  function Atoi(s: string): (r: Option<int>)
    ensures r.Some? <==> Unsigned(s) != "" && AllDigits(Unsigned(s))
    ensures r.Some? && |s| > 0 && s[0] == '-' ==> r.value <= 0
    ensures r.Some? && (|s| == 0 || s[0] != '-') ==> r.value >= 0
  {
    var digits := Unsigned(s);
    if digits == "" || !AllDigits(digits) then None
    else if s[0] == '-' then Some(0 - DigitsValue(digits) as int)
    else Some(DigitsValue(digits))
  }

  function DigitChar(d: nat): (c: char)
    requires d < 10
    ensures IsDigit(c) && c as int - '0' as int == d
  {
    ('0' as int + d) as char
  }

  /** The decimal text of a natural number, without leading zeros. */
  function Decimal(n: nat): (s: string)
    ensures s != "" && AllDigits(s)
  {
    if n < 10 then [DigitChar(n)] else Decimal(n / 10) + [DigitChar(n % 10)]
  }

  /** strconv.Itoa. */
  function Itoa(n: int): string
  {
    if n < 0 then "-" + Decimal(-n) else Decimal(n)
  }

  lemma {:induction false} DigitsValueOfDecimal(n: nat)
    ensures DigitsValue(Decimal(n)) == n
  {
    var s := Decimal(n);
    if n >= 10 {
      DigitsValueOfDecimal(n / 10);
      assert s[..|s| - 1] == Decimal(n / 10);
    }
  }

  /** Atoi reads back what Itoa writes. */
  lemma AtoiInvertsItoa(n: int)
    ensures Atoi(Itoa(n)) == Some(n)
  {
    if n < 0 {
      DigitsValueOfDecimal(-n);
      assert Unsigned(Itoa(n)) == Decimal(-n);
    } else {
      DigitsValueOfDecimal(n);
      var s := Decimal(n);
      assert IsDigit(s[0]);
      assert Unsigned(s) == s;
    }
  }

  /** Go's `n, _ := strconv.Atoi(s)`: a syntax error reads as 0. */
  function AtoiOrZero(s: string): (r: int)
    ensures Atoi(s).Some? ==> r == Atoi(s).value
    ensures Atoi(s).None? ==> r == 0
  {
    match Atoi(s)
    case None => 0
    case Some(n) => n
  }
}
