/** The text of the CRC table: Python's `hex`, decimal numbers, and `int(text, 16)`. */
module Csv {
  import opened Wrappers

  const DIGITS: string := "0123456789abcdef"

  function Digits(n: nat, base: nat): (s: string)
    requires 2 <= base <= 16
    ensures s != []
  {
    (if n < base then [] else Digits(n / base, base)) + [DIGITS[n % base]]
  }

  /** `f"{n}"` */
  function Dec(n: nat): string {
    Digits(n, 10)
  }

  /** `hex(n)` */
  function Hex(n: nat): string {
    "0x" + Digits(n, 16)
  }

  /** The value of one hexadecimal digit, in either case. */
  function DigitValue(c: char): (r: Option<nat>)
    ensures r.Some? ==> r.value < 16
  {
    if '0' <= c <= '9' then Some(c as nat - '0' as nat)
    else if 'a' <= c <= 'f' then Some(c as nat - 'a' as nat + 10)
    else if 'A' <= c <= 'F' then Some(c as nat - 'A' as nat + 10)
    else None
  }

  /** The value of digits that are followed by one more digit. */
  function Append(high: nat, digit: nat, base: nat): nat {
    base * high + digit
  }

  lemma OneDigit(n: nat, base: nat)
    requires n < base
    ensures n % base == n
  {
  }

  lemma AppendDigit(n: nat, base: nat)
    requires base > 0
    ensures Append(n / base, n % base, base) == n
  {
  }

  /** The value of a text of digits below the base. */
  function ParseDigits(s: string, base: nat): Option<nat>
    requires s != []
  {
    var last := DigitValue(s[|s| - 1]);
    var front := s[..|s| - 1];
    if last.None? || last.value >= base then None
    else if front == [] then last
    else
      var high := ParseDigits(front, base);
      if high.None? then None else Some(Append(high.value, last.value, base))
  }

  /** `int(s, 16)`, where None stands for the ValueError that it raises on any other text. */
  function ParseHex(s: string): Option<nat> {
    var body := if |s| >= 2 && s[0] == '0' && (s[1] == 'x' || s[1] == 'X') then s[2..] else s;
    if body == [] then None else ParseDigits(body, 16)
  }

  /** `int(s)`, on texts of digits. */
  function ParseDec(s: string): Option<nat> {
    if s == [] then None else ParseDigits(s, 10)
  }

  /** A digit is read in either case, and nothing else is; a digit must be below the base. */
  lemma DigitsRead(c: char, base: nat)
    requires base <= 16
    ensures DigitValue(c).Some? <==> '0' <= c <= '9' || 'a' <= c <= 'f' || 'A' <= c <= 'F'
    ensures DigitValue('0') == Some(0) && DigitValue('9') == Some(9)
    ensures DigitValue('a') == DigitValue('A') == Some(10) && DigitValue('f') == DigitValue('F') == Some(15)
    ensures ParseDigits([c], base).Some? <==> DigitValue(c).Some? && DigitValue(c).value < base
  {
  }

  /** The prefix is read in either case, and may be left out; it is not a number of its own. */
  lemma PrefixDropped(s: string)
    requires s != [] && s[0] != '0'
    ensures ParseHex("0x" + s) == ParseHex("0X" + s) == ParseHex(s) == ParseDigits(s, 16)
    ensures ParseHex("0x") == ParseHex("0X") == ParseHex("") == None
  {
    assert ("0x" + s)[2..] == s && ("0X" + s)[2..] == s;
  }

  lemma DigitRoundTrip(d: nat)
    requires d < 16
    ensures DigitValue(DIGITS[d]) == Some(d)
  {
  }

  lemma {:induction false} DigitsRoundTrip(n: nat, base: nat)
    requires 2 <= base <= 16
    ensures ParseDigits(Digits(n, base), base) == Some(n)
  {
    hide Digits, ParseDigits, DigitValue, Append;
    var q, digit := n / base, n % base;
    DigitRoundTrip(digit);
    AppendDigit(n, base);
    LastDigit(n, base);
    ParseLast(Digits(n, base), base);
    if n >= base {
      DigitsRoundTrip(q, base);
    } else {
      OneDigit(n, base);
    }
  }

  lemma {:induction false} ParseLast(s: string, base: nat)
    requires s != [] && DigitValue(s[|s| - 1]).Some? && DigitValue(s[|s| - 1]).value < base
    ensures var last, front := DigitValue(s[|s| - 1]), s[..|s| - 1];
            && (front == [] ==> ParseDigits(s, base) == last)
            && (front != [] && ParseDigits(front, base).Some? ==>
                  ParseDigits(s, base) == Some(Append(ParseDigits(front, base).value, last.value, base)))
  {
  }

  lemma {:induction false} LastDigit(n: nat, base: nat)
    requires 2 <= base <= 16
    ensures var s := Digits(n, base);
            && s[|s| - 1] == DIGITS[n % base]
            && s[..|s| - 1] == (if n < base then [] else Digits(n / base, base))
  {
  }

  /** A number written by `hex` is read back unchanged. */
  lemma HexRoundTrip(n: nat)
    ensures ParseHex(Hex(n)) == Some(n)
  {
    DigitsRoundTrip(n, 16);
    assert Hex(n)[2..] == Digits(n, 16);
  }

  /** And so is one written in decimal. */
  lemma DecRoundTrip(n: nat)
    ensures ParseDec(Dec(n)) == Some(n)
  {
    DigitsRoundTrip(n, 10);
  }

  /** Every digit is a lower-case one, and only zero starts with a zero. */
  lemma {:induction false} DigitsAreCanonical(n: nat, base: nat)
    requires 2 <= base <= 16
    ensures var s := Digits(n, base);
            && (forall i | 0 <= i < |s| :: '0' <= s[i] <= '9' || 'a' <= s[i] <= 'f')
            && (s[0] == '0' <==> n == 0)
            && (n == 0 ==> |s| == 1)
  {
    if n >= base { DigitsAreCanonical(n / base, base); }
  }
}
