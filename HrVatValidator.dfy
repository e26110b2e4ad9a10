/** The Croatian validator: eleven digits checked with ISO/IEC 7064 MOD 11,10. */
module HrVatValidator {
  import opened Text
  import opened Results
  import opened Iso7064

  /** `^\d{11}$`: exactly eleven digits. */
  predicate MatchesFormat(vat: string) {
    |vat| == 11 && AllDigits(vat)
  }

  /** What `OnValidate` answers: success when `(product + last digit) % 10 == 1`. */
  function Verdict(vat: string): ValidationResult
    requires MatchesFormat(vat)
  {
    if CompletesToOne(Product(vat[..10]), DigitValue(vat[10])) then Success
    else Failed(Message("Invalid HR vat: checkValue"))
  }

  /** The acceptance test of the last digit: `(product + digit) % 10 == 1`. */
  predicate CompletesToOne(product: int, digit: int) {
    (product + digit) % 10 == 1
  }

  /** The only last digit that completes a product `p` in 1..10 to 1 modulo 10. */
  function ExpectedLastDigit(p: int): (d: int)
    requires 1 <= p <= 10
    ensures 0 <= d <= 9 && CompletesToOne(p, d)
    ensures forall e :: 0 <= e <= 9 && CompletesToOne(p, e) ==> e == d
  {
    (11 - p) % 10
  }

  /** The checksum: ten product steps, then the product plus the last digit, compared with 1. */
  method OnValidate(vat: string) returns (r: ValidationResult)
    requires MatchesFormat(vat)
    ensures r == Verdict(vat)
    ensures r == Success <==> vat[10] == DigitChar(ExpectedLastDigit(Product(vat[..10])))
  {
    var product := 10;
    for index := 0 to 10
      invariant product == Product(vat[..index])
    {
      ProductOfPrefix(vat, index);
      var sum := (DigitValue(vat[index]) + product) % 10;
      if sum == 0 {
        sum := 10;
      }
      product := 2 * sum % 11;
    }
    var checkDigit := (product + DigitValue(vat[10])) % 10;
    var isValid := checkDigit == 1;
    r := if !isValid then Failed(Message("Invalid HR vat: checkValue")) else Success;
  }

  /** For every ten leading digits exactly one eleventh digit is accepted. */
  lemma UniqueLastDigit(prefix: string, last: char)
    requires |prefix| == 10 && AllDigits(prefix) && IsDigit(last)
    ensures MatchesFormat(prefix + [last])
    ensures Verdict(prefix + [last]) == Success <==> last == DigitChar(ExpectedLastDigit(Product(prefix)))
  {
  }
}
