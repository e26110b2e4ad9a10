/** The Romanian validator: 2 to 10 digits, the last one a control digit. */
module RoVatValidator {
  import opened Text
  import opened Results

  /** `^[0-9]{2,10}$`: between two and ten digits. */
  predicate MatchesFormat(vat: string) {
    2 <= |vat| <= 10 && AllDigits(vat)
  }

  /** The weights of the nine digits of the padded body. */
  const Multipliers: seq<int> := [7, 5, 3, 2, 1, 7, 5, 3, 2]

  /** The digits before the control digit, left-padded with '0' to nine characters. */
  function PaddedBody(vat: string): (padded: string)
    requires MatchesFormat(vat)
    ensures |padded| == 9 && AllDigits(padded)
    ensures padded[9 - (|vat| - 1)..] == vat[..|vat| - 1]
    ensures forall i :: 0 <= i < 9 - (|vat| - 1) ==> padded[i] == '0'
  {
    var body := vat[..|vat| - 1];
    var zeros := Repeat('0', 9 - |body|);
    assert PadLeft(body, 9, '0') == zeros + body;
    assert forall i :: |zeros| <= i < 9 ==> (zeros + body)[i] == body[i - |zeros|];
    zeros + body
  }

  /** `sum * 10 % 11`, with 10 written as 0. */
  function CheckOfSum(sum: int): (d: int)
    ensures 0 <= d <= 9
    ensures d == sum * 10 % 11 % 10
  {
    var checkDigit := sum * 10 % 11;
    if checkDigit == 10 then 0 else checkDigit
  }

  /** The check digit of the padded body. */
  function CheckDigit(vat: string): (d: int)
    requires MatchesFormat(vat)
    ensures 0 <= d <= 9
  {
    CheckOfSum(WeightedSum(PaddedBody(vat), Multipliers))
  }

  /** The checksum: the control digit against the check digit of the padded body. */
  function OnValidate(vat: string): (r: ValidationResult)
    requires MatchesFormat(vat)
    ensures r == Success <==> vat[|vat| - 1] == DigitChar(CheckDigit(vat))
    ensures r != Success ==> r == Failed(Message("Invalid RO vat: checkValue"))
  {
    var controlDigit := DigitValue(vat[|vat| - 1]);
    var checkDigit := CheckDigit(vat);
    var isValid := checkDigit == controlDigit;
    DigitValueInjective(vat[|vat| - 1], DigitChar(checkDigit));
    if !isValid then Failed(Message("Invalid RO vat: checkValue")) else Success
  }

  /**
   * The padding zeros add nothing: the body's digits are weighted by the
   * right-most `|body|` multipliers.
   */
  lemma PaddingAddsNothing(vat: string)
    requires MatchesFormat(vat)
    ensures WeightedSum(PaddedBody(vat), Multipliers) == WeightedSum(vat[..|vat| - 1], Multipliers[10 - |vat|..])
  {
    var body := vat[..|vat| - 1];
    var k := 9 - |body|;
    assert PaddedBody(vat) == Repeat('0', k) + body;
    LeadingZerosAddNothing(Repeat('0', k), body, Multipliers);
  }

  /** The check digit is read off the digits before the control digit alone. */
  lemma CheckDigitOfBody(vat: string)
    requires MatchesFormat(vat)
    ensures CheckDigit(vat) == CheckOfSum(WeightedSum(vat[..|vat| - 1], Multipliers[10 - |vat|..]))
  {
    PaddingAddsNothing(vat);
  }

  /** The control digit placed after a body does not change the check digit. */
  lemma ControlDigitIrrelevant(body: string, one: char, other: char)
    requires 1 <= |body| <= 9 && AllDigits(body) && IsDigit(one) && IsDigit(other)
    ensures MatchesFormat(body + [one]) && MatchesFormat(body + [other])
    ensures CheckDigit(body + [one]) == CheckDigit(body + [other])
  {
    DigitsSnoc(body, one);
    DigitsSnoc(body, other);
    CheckDigitOfBody(body + [one]);
    CheckDigitOfBody(body + [other]);
  }

  /** For every body of one to nine digits exactly one control digit is accepted. */
  lemma UniqueControlDigit(body: string, last: char)
    requires 1 <= |body| <= 9 && AllDigits(body) && IsDigit(last)
    ensures MatchesFormat(body + [last])
    ensures forall other :: IsDigit(other) ==> CheckDigit(body + [other]) == CheckDigit(body + [last])
    ensures OnValidate(body + [last]) == Success <==> last == DigitChar(CheckDigit(body + [last]))
  {
    forall other | IsDigit(other) ensures CheckDigit(body + [other]) == CheckDigit(body + [last]) {
      ControlDigitIrrelevant(body, other, last);
    }
  }
}
