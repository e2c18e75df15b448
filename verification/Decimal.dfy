/** Decimal numbers as the deck files write and read them. */
module Decimal {

  const MIN_INT := -0x8000_0000
  const MAX_INT := 0x7FFF_FFFF

  predicate IsDigit(c: char)
  {
    '0' <= c <= '9'
  }

  function DigitChar(d: int): (c: char)
    requires 0 <= d < 10
    ensures IsDigit(c) && DigitValue(c) == d
  {
    (d + 48) as char
  }

  function DigitValue(c: char): (d: int)
    requires IsDigit(c)
    ensures 0 <= d < 10
  {
    c as int - 48
  }

  predicate AllDigits(s: string)
  {
    forall i :: 0 <= i < |s| ==> IsDigit(s[i])
  }

  function PrintNat(n: nat): (s: string)
    ensures s != [] && AllDigits(s)
  {
    if n < 10 then [DigitChar(n)] else PrintNat(n / 10) + [DigitChar(n % 10)]
  }

  function ValueOf(s: string): (n: nat)
    requires AllDigits(s)
  {
    if s == [] then 0 else 10 * ValueOf(s[..|s| - 1]) + DigitValue(s[|s| - 1])
  }

  function Print(n: int): string
  {
    if n < 0 then "-" + PrintNat(-n) else PrintNat(n)
  }

  /** Zero when the text is no number or one that does not fit 32 bits. */
  function ToInt(s: string): (n: int)
    ensures MIN_INT <= n <= MAX_INT
  {
    var negative := s != [] && s[0] == '-';
    var digits := if negative then s[1..] else s;
    if digits == [] || !AllDigits(digits) then 0
    else
      var value: int := ValueOf(digits);
      var n := if negative then -value else value;
      if MIN_INT <= n <= MAX_INT then n else 0
  }

  lemma {:induction false} PrintedValue(n: nat)
    ensures ValueOf(PrintNat(n)) == n
  {
    if n >= 10 {
      PrintedValue(n / 10);
      var s := PrintNat(n);
      assert s[..|s| - 1] == PrintNat(n / 10);
    }
  }

  /** Every 32-bit number reads back as itself. */
  lemma PrintThenRead(n: int)
    requires MIN_INT <= n <= MAX_INT
    ensures ToInt(Print(n)) == n
  {
    PrintedValue(if n < 0 then -n else n);
    if n < 0 {
      assert Print(n)[1..] == PrintNat(-n);
    }
  }
}
