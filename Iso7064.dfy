/**
 * The iterative product step of the ISO/IEC 7064 MOD 11,10 hybrid system,
 * which the DE and HR validators both run over their leading digits.
 */
module Iso7064 {
  import opened Text

  /**
   * One step: `sum = (digit + product) % 10`, a zero sum counts as 10, and the
   * new product is `2 * sum % 11`. Because 11 is prime and `sum` lies in
   * 1..10, `2 * sum` is never a multiple of 11, so the product stays in 1..10.
   */
  function Step(product: int, digit: int): (next: int)
    requires 1 <= product <= 10 && 0 <= digit <= 9
    ensures 1 <= next <= 10
  {
    var sum := (digit + product) % 10;
    var sum' := if sum == 0 then 10 else sum;
    2 * sum' % 11
  }

  /** The product after running `Step` over every digit of `s`, starting from 10. */
  function Product(s: string): (p: int)
    requires AllDigits(s)
    ensures 1 <= p <= 10
    decreases |s|
  {
    if |s| == 0 then 10 else Step(Product(s[..|s| - 1]), DigitValue(s[|s| - 1]))
  }

  /** The product depends only on the digits it has run over. */
  lemma ProductOfPrefix(s: string, n: nat)
    requires AllDigits(s) && n < |s|
    ensures AllDigits(s[..n]) && AllDigits(s[..n + 1])
    ensures Product(s[..n + 1]) == Step(Product(s[..n]), DigitValue(s[n]))
  {
    assert s[..n + 1][..n] == s[..n];
  }
}
