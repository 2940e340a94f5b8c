/** Decimal numerals: a number's digits, and the number back from them. */
module Numerals {

  predicate IsDigit(c: char) { '0' <= c <= '9' }

  predicate AllDigits(s: string) { forall i :: 0 <= i < |s| ==> IsDigit(s[i]) }

  function DigitsValue(s: string): nat
    requires AllDigits(s)
  {
    if s == "" then 0 else 10 * DigitsValue(s[..|s| - 1]) + (s[|s| - 1] as int - '0' as int)
  }

  function Decimal(n: nat): (s: string)
    ensures s != "" && AllDigits(s)
    ensures DigitsValue(s) == n
  {
    var last := [('0' as int + n % 10) as char];
    if n < 10 then
      assert last[..0] == "";
      last
    else
      var s := Decimal(n / 10) + last;
      assert s[..|s| - 1] == Decimal(n / 10);
      s
  }

  function LastDigit(n: nat): char { ('0' as int + n % 10) as char }

  /** The digits still to be written: none for 0. */
  function Ahead(n: nat): string { if n == 0 then "" else Ahead(n / 10) + [LastDigit(n)] }

  lemma {:induction false} AheadIsDecimal(n: nat)
    ensures Decimal(n) == Ahead(n / 10) + [LastDigit(n)]
    ensures n > 0 ==> Decimal(n) == Ahead(n)
  {
    if n < 10 {
      assert Ahead(n / 10) == "";
    } else {
      AheadIsDecimal(n / 10);
    }
  }

  /** The digits of a number, from the last, at the end of a small table. */
  method DigitsOf(number: nat, width: nat) returns (digits: array<char>, at: nat)
    requires |Decimal(number)| <= width
    ensures fresh(digits) && at <= digits.Length && digits[at..] == Decimal(number)
  {
    digits := new char[width](_ => '0');
    at := width - 1;
    PutInFront(digits, at, LastDigit(number));
    var n: nat := number / 10;
    AheadIsDecimal(number);
    ghost var all := Decimal(number);
    assert digits[at..] == [LastDigit(number)];
    while n != 0
      invariant at < width == digits.Length && |Ahead(n)| <= at
      invariant all == Ahead(n) + digits[at..]
      decreases n
    {
      ghost var done := digits[at..];
      at := at - 1;
      PutInFront(digits, at, LastDigit(n));
      Regroup(Ahead(n / 10), [LastDigit(n)], done);
      n := n / 10;
    }
    assert Ahead(0) + digits[at..] == digits[at..];
  }

  method PutInFront(digits: array<char>, at: nat, c: char)
    requires at < digits.Length
    modifies digits
    ensures digits[at..] == [c] + old(digits[at + 1..])
  {
    digits[at] := c;
  }

  lemma Regroup(a: string, b: string, c: string)
    ensures a + b + c == a + (b + c)
  {
  }

  function PowerOfTen(n: nat): nat { if n == 0 then 1 else 10 * PowerOfTen(n - 1) }

  lemma {:induction false} DecimalLength(n: nat, width: nat)
    requires width > 0 && n < PowerOfTen(width)
    ensures |Decimal(n)| <= width
  {
    if n >= 10 { DecimalLength(n / 10, width - 1); }
  }
}
