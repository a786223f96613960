/** Numerals: reading an unsigned integer literal with its base given by its prefix, as
    strconv.ParseUint does with base 0, and printing a number in decimal, as the %d verb
    does. */
module Numerals {
  import opened Results

  /** The value of a digit character in bases up to 36; 36 for any other character. */
  function DigitOf(ch: char): (d: nat)
    ensures d <= 36
  {
    if '0' <= ch <= '9' then ch as int - '0' as int
    else if 'a' <= ch <= 'z' then ch as int - 'a' as int + 10
    else if 'A' <= ch <= 'Z' then ch as int - 'A' as int + 10
    else 36
  }

  /** Is every character of s a digit of the given base? */
  predicate DigitsIn(s: string, base: nat) {
    s == [] || (DigitsIn(s[..|s| - 1], base) && DigitOf(s[|s| - 1]) < base)
  }

  /** The value of a run of digits in the given base, most significant first. */
  function ValueIn(s: string, base: nat): nat
    requires DigitsIn(s, base)
  {
    if s == [] then 0 else base * ValueIn(s[..|s| - 1], base) + DigitOf(s[|s| - 1])
  }

  /** The digits and base of an unsigned numeral, the base taken from its prefix: `0x`
      or `0X` for hexadecimal, a leading `0` for octal (the zero counts as a digit),
      decimal otherwise. None when the text is empty or is a bare `0x`. */
  function Numeral(s: string): (r: Option<(string, nat)>)
    ensures r.Some? ==> r.value.1 in {8, 10, 16} && |r.value.0| > 0
  {
    if s == [] then None
    else if |s| > 1 && s[0] == '0' && (s[1] == 'x' || s[1] == 'X') then
      if |s| < 3 then None else Some((s[2..], 16))
    else if s[0] == '0' then Some((s, 8))
    else Some((s, 10))
  }

  /** The value a numeral denotes, None when it is not a numeral. */
  function NumeralValue(s: string): Option<nat> {
    match Numeral(s)
    case None => None
    case Some((digits, base)) => if DigitsIn(digits, base) then Some(ValueIn(digits, base)) else None
  }

  /** A numeral with a hexadecimal prefix denotes its remaining digits in base 16. */
  lemma HexadecimalPrefix(s: string)
    requires |s| > 2 && s[0] == '0' && (s[1] == 'x' || s[1] == 'X') && DigitsIn(s[2..], 16)
    ensures NumeralValue(s) == Some(ValueIn(s[2..], 16))
  {
    assert Numeral(s) == Some((s[2..], 16));
  }

  /** Eight and nine are not octal digits: "09" is no numeral at all. */
  lemma OctalRejectsNine()
    ensures NumeralValue("09") == None
  {
    assert DigitOf("09"[1]) == 9;
  }

  /** The decimal numeral of n, as the %d verb prints it. */
  function Decimal(n: nat): string {
    var last := [('0' as int + n % 10) as char];
    if n < 10 then last else Decimal(n / 10) + last
  }

  /** The numeral of n is a non-empty run of decimal digits, with no leading zero unless
      n is zero, whose value is n. */
  lemma {:induction false} DecimalDigits(n: nat)
    ensures |Decimal(n)| > 0 && DigitsIn(Decimal(n), 10) && ValueIn(Decimal(n), 10) == n
    ensures n > 0 ==> Decimal(n)[0] != '0'
  {
    if n >= 10 {
      DecimalDigits(n / 10);
      var r := Decimal(n);
      assert r[..|r| - 1] == Decimal(n / 10);
    }
  }

  /** Printing a number in decimal and reading it back gives the number: zero prints as
      "0", which reads as an octal zero, and anything else has no leading zero. */
  lemma DecimalRoundTrip(n: nat)
    ensures NumeralValue(Decimal(n)) == Some(n)
  {
    DecimalDigits(n);
    if n == 0 {
      assert Decimal(n) == "0";
      assert ValueIn("0", 8) == 8 * ValueIn("", 8) + 0;
    }
  }

  /** A string in double quotes, as the %q verb prints one without special characters. */
  function Quote(s: string): string {
    "\"" + s + "\""
  }
}
