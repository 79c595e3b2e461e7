/** Lower-case hexadecimal digits, as printf writes them. */
module HexText {

  function HexDigit(d: nat): char
    requires d < 16
  {
    "0123456789abcdef"[d]
  }

  function DigitValue(c: char): nat {
    if '0' <= c <= '9' then (c - '0') as nat
    else if 'a' <= c <= 'f' then (c - 'a') as nat + 10
    else 0
  }

  predicate IsDigit(c: char) {
    '0' <= c <= '9' || 'a' <= c <= 'f'
  }

  /** The digits 0 to 9, and then the lower-case letters. */
  lemma DigitsInOrder(d: nat)
    requires d < 16
    ensures HexDigit(d) as int == if d < 10 then '0' as int + d else 'a' as int + d - 10
  {
  }

  lemma DigitReadsBack(d: nat)
    requires d < 16
    ensures DigitValue(HexDigit(d)) == d && IsDigit(HexDigit(d))
  {
  }

  lemma ValueReadsBack(c: char)
    requires IsDigit(c)
    ensures DigitValue(c) < 16 && HexDigit(DigitValue(c)) == c
  {
  }
}
