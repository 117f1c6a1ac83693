/**
 * The two pieces of JavaScript value semantics that the checkout wizard relies
 * on: `Number.prototype.toString()` of a non-negative integer and the relational
 * comparison `<` of two strings.
 */
module JsText {

  /** The character of one decimal digit. */
  function DigitChar(d: nat): char
    requires d < 10
  {
    (48 + d) as char
  }

  /** `n.toString()`: the decimal digits of `n`, without leading zeros. */
  function DecimalString(n: nat): (s: string)
    ensures 1 <= |s|
    ensures |s| == 1 <==> n < 10
    ensures n < 10 ==> s == [DigitChar(n)]
  {
    if n < 10 then [DigitChar(n)] else DecimalString(n / 10) + [DigitChar(n % 10)]
  }

  /**
   * `a < b` on two strings: lexicographic on characters, a proper prefix
   * being smaller.
   */
  predicate StringLess(a: string, b: string)
  {
    if a == [] then b != []
    else if b == [] then false
    else if a[0] != b[0] then a[0] < b[0]
    else StringLess(a[1..], b[1..])
  }

  /** On one-digit numbers the string order and the numeric order coincide. */
  lemma DigitOrder(d: nat, e: nat)
    requires d < 10 && e < 10
    ensures StringLess(DecimalString(d), DecimalString(e)) <==> d < e
  {
    assert DecimalString(d) == [DigitChar(d)] && DecimalString(e) == [DigitChar(e)];
  }

  /** A number whose decimal string is one given digit is that digit. */
  lemma DecimalStringOfDigit(n: nat, d: nat)
    requires d < 10
    ensures DecimalString(n) == DecimalString(d) <==> n == d
  {
    if DecimalString(n) == DecimalString(d) {
      assert |DecimalString(n)| == 1;
      assert DigitChar(n) == DigitChar(d);
    }
  }
}
