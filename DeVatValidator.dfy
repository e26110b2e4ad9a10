/** The German validator: nine digits, the last one an ISO/IEC 7064 MOD 11,10 check digit. */
module DeVatValidator {
  import opened Text
  import opened Results
  import opened Iso7064

  /** `^[1-9]\d{8}$`: nine digits, the first one not zero. */
  predicate MatchesFormat(vat: string)
    ensures MatchesFormat(vat) <==> |vat| == 9 && AllDigits(vat) && vat[0] != '0'
  {
    |vat| == 9 && '1' <= vat[0] <= '9' && forall i :: 1 <= i < 9 ==> IsDigit(vat[i])
  }

  /** The check digit of eight leading digits: `11 - product`, with 10 written as 0. */
  function CheckDigit(prefix: string): (d: int)
    requires |prefix| == 8 && AllDigits(prefix)
    ensures 0 <= d <= 9
    ensures d == (11 - Product(prefix)) % 10
  {
    var val := 11 - Product(prefix);
    if val == 10 then 0 else val
  }

  /** What `OnValidate` answers for a number that matched the format. */
  function Verdict(vat: string): ValidationResult
    requires MatchesFormat(vat)
  {
    if CheckDigit(vat[..8]) == DigitValue(vat[8]) then Success
    else Failed(Message("Invalid DE vat: checkValue"))
  }

  /** The checksum: eight product steps, then the check digit against the ninth digit. */
  method OnValidate(vat: string) returns (r: ValidationResult)
    requires MatchesFormat(vat)
    ensures r == Verdict(vat)
    ensures r == Success <==> vat[8] == DigitChar(CheckDigit(vat[..8]))
  {
    var product := 10;
    for index := 0 to 8
      invariant product == Product(vat[..index])
    {
      ProductOfPrefix(vat, index);
      var sum := (DigitValue(vat[index]) + product) % 10;
      if sum == 0 {
        sum := 10;
      }
      product := 2 * sum % 11;
    }
    var val := 11 - product;
    var checkDigit := if val == 10 then 0 else val;
    var isValid := checkDigit == DigitValue(vat[8]);
    r := if !isValid then Failed(Message("Invalid DE vat: checkValue")) else Success;
  }

  /** For every eight leading digits exactly one ninth digit is accepted. */
  lemma UniqueCheckDigit(prefix: string, last: char)
    requires |prefix| == 8 && '1' <= prefix[0] <= '9' && AllDigits(prefix) && IsDigit(last)
    ensures MatchesFormat(prefix + [last])
    ensures Verdict(prefix + [last]) == Success <==> last == DigitChar(CheckDigit(prefix))
  {
  }

  /** Over 1366 the product runs 2, 10, 1 and reaches 3. */
  lemma ExampleProductHead()
    ensures Product("1366") == 3
  {
    assert "1"[..0] == [] && "13"[..1] == "1" && "136"[..2] == "13" && "1366"[..3] == "136";
    assert Product("1") == 2;
    assert Product("13") == 10;
    assert Product("136") == 1;
  }

  /** Over 13669597 the product runs on from 3 through 4, 7, 1 and ends at 5. */
  lemma ExampleProduct()
    ensures Product("13669597") == 5
  {
    ExampleProductHead();
    assert "13669"[..4] == "1366" && "136695"[..5] == "13669" && "1366959"[..6] == "136695";
    assert "13669597"[..7] == "1366959";
    assert Product("13669") == 4;
    assert Product("136695") == 7;
    assert Product("1366959") == 1;
  }

  /** 136695976 is accepted: the product ends at 5, so the check digit is 6. */
  lemma AcceptsExample()
    ensures MatchesFormat("136695976")
    ensures CheckDigit("13669597") == 6
    ensures Verdict("136695976") == Success
  {
    ExampleProduct();
    assert "136695976"[..8] == "13669597";
  }
}
