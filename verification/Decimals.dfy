/** Decimal text of integers, and the platform parsers that read it back. */
module Decimals {
  import opened Wrappers

  function Digit(d: nat): char
    requires d < 10
  {
    "0123456789"[d]
  }

  predicate IsDigit(c: char) {
    '0' <= c <= '9'
  }

  function DigitValue(c: char): nat
    requires IsDigit(c)
  {
    c as int - '0' as int
  }

  /** Decimal digits without leading zeros. */
  function PrintNat(n: nat): (s: string)
    ensures s != "" && forall c :: c in s ==> IsDigit(c)
  {
    if n < 10 then [Digit(n)] else PrintNat(n / 10) + [Digit(n % 10)]
  }

  function Print(i: int): (s: string)
    ensures s != "" && forall c :: c in s ==> IsDigit(c) || c == '-'
  {
    if i < 0 then "-" + PrintNat(-i) else PrintNat(i)
  }

  function Value(digits: string): nat
    requires forall c :: c in digits ==> IsDigit(c)
  {
    if digits == "" then 0 else 10 * Value(digits[..|digits| - 1]) + DigitValue(digits[|digits| - 1])
  }

  predicate AllDigits(s: string) {
    s != "" && forall c :: c in s ==> IsDigit(c)
  }

  /** An optional sign, then digits, with a value within the bounds; anything else does not parse. */
  function Parse(s: string, least: int, most: int): Option<int> {
    if s == "" then None
    else
      var signed := s[0] == '-' || s[0] == '+';
      var digits := if signed then s[1..] else s;
      if !AllDigits(digits) then None
      else
        var v: int := if s[0] == '-' then 0 - Value(digits) else Value(digits);
        if least <= v <= most then Some(v) else None
  }

  lemma {:induction false} ValueOfPrint(n: nat)
    ensures Value(PrintNat(n)) == n
  {
    if n < 10 {
      assert PrintNat(n)[..0] == "";
    } else {
      ValueOfPrint(n / 10);
      var s := PrintNat(n);
      assert s[..|s| - 1] == PrintNat(n / 10);
    }
  }

  /** Printing then parsing gives the number back whenever it is within the bounds. */
  lemma ParsePrint(i: int, least: int, most: int)
    ensures Parse(Print(i), least, most) == if least <= i <= most then Some(i) else None
  {
    if i < 0 {
      ValueOfPrint(-i);
      assert Print(i)[1..] == PrintNat(-i);
    } else {
      ValueOfPrint(i);
      assert IsDigit(Print(i)[0]);
    }
  }

  // ---------- Decimal notation ----------

  function Pow10(k: nat): nat {
    if k == 0 then 1 else 10 * Pow10(k - 1)
  }

  /** A digit string counted from the left, each digit with the weight of its place. */
  function Positional(s: string): int
    requires forall c :: c in s ==> IsDigit(c)
  {
    if s == "" then 0 else (s[0] as int - '0' as int) * Pow10(|s| - 1) + Positional(s[1..])
  }

  lemma {:induction false} ValueIsPositional(s: string)
    requires forall c :: c in s ==> IsDigit(c)
    ensures Value(s) == Positional(s)
  {
    if s != "" {
      ValueIsPositional(s[..|s| - 1]);
      PositionalAppend(s[..|s| - 1], s[|s| - 1]);
      assert s == s[..|s| - 1] + [s[|s| - 1]];
    }
  }

  lemma {:induction false} PositionalAppend(s: string, c: char)
    requires (forall d :: d in s ==> IsDigit(d)) && IsDigit(c)
    ensures Positional(s + [c]) == 10 * Positional(s) + (c as int - '0' as int)
  {
    if s == "" {
      assert s + [c] == [c] && [c][1..] == "";
      assert Pow10(0) == 1;
    } else {
      PositionalAppend(s[1..], c);
      assert (s + [c])[1..] == s[1..] + [c];
      var d, p := s[0] as int - '0' as int, Pow10(|s| - 1);
      assert Pow10(|s|) == 10 * p;
      assert d * (10 * p) == 10 * (d * p);
    }
  }

  /** Digits, alone or after one sign. */
  predicate IsNumeral(s: string) {
    var digits := if s != "" && (s[0] == '+' || s[0] == '-') then s[1..] else s;
    digits != "" && forall c :: c in digits ==> IsDigit(c)
  }

  function NumeralValue(s: string): int
    requires IsNumeral(s)
  {
    if s[0] == '-' then -Positional(s[1..]) else if s[0] == '+' then Positional(s[1..]) else Positional(s)
  }

  /** A text parses exactly when it is a numeral within the bounds, and then as its value in decimal notation. */
  lemma ParseExactly(s: string, least: int, most: int)
    ensures Parse(s, least, most) ==
            if IsNumeral(s) && least <= NumeralValue(s) <= most then Some(NumeralValue(s)) else None
  {
    if s != "" {
      var digits := if s[0] == '+' || s[0] == '-' then s[1..] else s;
      if AllDigits(digits) {
        ValueIsPositional(digits);
      }
    }
  }

  /** A printed number is the numeral of its value without a plus sign or leading zeros. */
  lemma PrintIsNumeral(i: int)
    ensures IsNumeral(Print(i)) && NumeralValue(Print(i)) == i
    ensures Print(i)[0] != '+' && (Print(i)[0] == '-' <==> i < 0)
    ensures var digits := if i < 0 then Print(i)[1..] else Print(i);
            digits[0] == '0' ==> i == 0 && digits == "0"
  {
    var n: nat := if i < 0 then -i else i;
    ValueOfPrint(n);
    ValueIsPositional(PrintNat(n));
    NoLeadingZero(n);
    assert PrintNat(n)[0] in PrintNat(n);
  }

  lemma {:induction false} NoLeadingZero(n: nat)
    ensures PrintNat(n)[0] == '0' ==> n == 0 && PrintNat(n) == "0"
  {
    if n >= 10 {
      NoLeadingZero(n / 10);
      assert PrintNat(n)[0] == PrintNat(n / 10)[0];
    }
  }
}
