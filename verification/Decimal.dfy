/** Decimal printing, and `str::parse` for the integer types. */
module Decimal {
  import opened Basics
  import opened Text

  function Print(n: nat): (s: string)
    ensures s != "" && forall c :: c in s ==> IsDigit(c)
  {
    if n < 10 then [Digit(n)] else Print(n / 10) + [Digit(n % 10)]
  }

  function Digit(d: nat): (c: char)
    requires d < 10
    ensures IsDigit(c)
  {
    (d + 48) as char
  }

  predicate AllDigits(s: string) {
    forall c :: c in s ==> IsDigit(c)
  }

  function Value(s: string): nat
    requires AllDigits(s)
  {
    if s == "" then 0
    else
      assert s[|s| - 1] in s;
      Value(s[..|s| - 1]) * 10 + (s[|s| - 1] as int - 48)
  }

  /** `parse` for an unsigned type: an optional `+`, at least one digit, no overflow. */
  function ParseUnsigned(s: string, max: nat): Option<nat> {
    var digits := if s != "" && s[0] == '+' then s[1..] else s;
    if digits != "" && AllDigits(digits) && Value(digits) <= max then Some(Value(digits)) else None
  }

  /** `parse::<i64>`: an optional sign, at least one digit, no overflow. */
  function ParseI64(s: string): Option<int> {
    if s != "" && s[0] == '-' then
      if s[1..] != "" && AllDigits(s[1..]) && Value(s[1..]) <= 0x8000_0000_0000_0000
      then (var n: int := Value(s[1..]); Some(-n)) else None
    else
      match ParseUnsigned(s, 0x7FFF_FFFF_FFFF_FFFF)
      case None => None
      case Some(n) => Some(n)
  }

  lemma {:induction false} ValueOfPrint(n: nat)
    ensures Value(Print(n)) == n
  {
    if n >= 10 {
      ValueOfPrint(n / 10);
      assert Print(n)[..|Print(n)| - 1] == Print(n / 10);
    }
  }

  /** Parsing undoes printing for every value the type can hold. */
  lemma ParsePrint(n: nat, max: nat)
    requires n <= max
    ensures ParseUnsigned(Print(n), max) == Some(n)
  {
    ValueOfPrint(n);
    assert Print(n)[0] in Print(n);
  }

  lemma PrintInjective(m: nat, n: nat)
    requires Print(m) == Print(n)
    ensures m == n
  {
    ValueOfPrint(m);
    ValueOfPrint(n);
  }
}
