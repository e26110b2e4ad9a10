/**
 * The Czech validator. Only the eight-digit numbers carry a checksum; the
 * longer ones the format admits are accepted without one.
 */
module CzVatValidator {
  import opened Text
  import opened Results

  /**
   * `^(\d{8,10})(\d{3})?$`: a group of 8 to 10 digits, optionally followed by
   * three more, which is every digit string of length 8 to 13.
   */
  predicate MatchesFormat(vat: string)
    ensures MatchesFormat(vat) <==> AllDigits(vat) && 8 <= |vat| <= 13
  {
    AllDigits(vat) && (8 <= |vat| <= 10 || 8 <= |vat| - 3 <= 10)
  }

  /** The weights of the first seven digits. */
  const Multipliers: seq<int> := [8, 7, 6, 5, 4, 3, 2]

  /** `11 - sum % 11`, with 10 written as 0 and 11 as 1. */
  function CheckOfSum(sum: int): (d: int)
    ensures 0 <= d <= 9
    ensures d == (11 - sum % 11) % 10
  {
    var checkDigit := 11 - sum % 11;
    if checkDigit == 10 then 0 else if checkDigit == 11 then 1 else checkDigit
  }

  /** The check digit of an eight-digit number, from the weighted sum of its first seven digits. */
  function CheckDigit(vat: string): (d: int)
    requires |vat| == 8 && AllDigits(vat)
    ensures 0 <= d <= 9
  {
    CheckOfSum(WeightedSum(vat, Multipliers))
  }

  /** The checksum, which applies to eight-digit numbers only. */
  function OnValidate(vat: string): (r: ValidationResult)
    requires MatchesFormat(vat)
    ensures |vat| != 8 ==> r == Success
    ensures |vat| == 8 ==> (r == Success <==> vat[7] == DigitChar(CheckDigit(vat)))
    ensures r != Success ==> r == Failed(Message("Invalid CZ vat: checkValue"))
  {
    if |vat| != 8 then Success
    else
      var checkDigit := CheckDigit(vat);
      var isValid := checkDigit == DigitValue(vat[7]);
      if !isValid then Failed(Message("Invalid CZ vat: checkValue")) else Success
  }

  /** The sum weights the first seven digits by 8, 7, ..., 2. */
  lemma SumIsWeighted(vat: string)
    requires |vat| == 8 && AllDigits(vat)
    ensures WeightedSum(vat, Multipliers) ==
      8 * DigitValue(vat[0]) + 7 * DigitValue(vat[1]) + 6 * DigitValue(vat[2]) + 5 * DigitValue(vat[3])
      + 4 * DigitValue(vat[4]) + 3 * DigitValue(vat[5]) + 2 * DigitValue(vat[6])
  {
    assert Multipliers[1..] == [7, 6, 5, 4, 3, 2];
    assert [7, 6, 5, 4, 3, 2][1..] == [6, 5, 4, 3, 2] && [6, 5, 4, 3, 2][1..] == [5, 4, 3, 2];
    assert [5, 4, 3, 2][1..] == [4, 3, 2] && [4, 3, 2][1..] == [3, 2] && [3, 2][1..] == [2] && [2][1..] == [];
    var s1, s2, s3, s4, s5, s6 := vat[1..], vat[2..], vat[3..], vat[4..], vat[5..], vat[6..];
    assert s1[1..] == s2 && s2[1..] == s3 && s3[1..] == s4 && s4[1..] == s5 && s5[1..] == s6;
    assert WeightedSum(s6, [2]) == 2 * DigitValue(vat[6]);
    assert WeightedSum(s5, [3, 2]) == 3 * DigitValue(vat[5]) + WeightedSum(s6, [2]);
    assert WeightedSum(s4, [4, 3, 2]) == 4 * DigitValue(vat[4]) + WeightedSum(s5, [3, 2]);
    assert WeightedSum(s3, [5, 4, 3, 2]) == 5 * DigitValue(vat[3]) + WeightedSum(s4, [4, 3, 2]);
    assert WeightedSum(s2, [6, 5, 4, 3, 2]) == 6 * DigitValue(vat[2]) + WeightedSum(s3, [5, 4, 3, 2]);
    assert WeightedSum(s1, [7, 6, 5, 4, 3, 2]) == 7 * DigitValue(vat[1]) + WeightedSum(s2, [6, 5, 4, 3, 2]);
  }

  /** For every seven leading digits exactly one eighth digit is accepted. */
  lemma UniqueCheckDigit(prefix: string, last: char)
    requires |prefix| == 7 && AllDigits(prefix) && IsDigit(last)
    ensures MatchesFormat(prefix + [last])
    ensures OnValidate(prefix + [last]) == Success <==> last == DigitChar(CheckDigit(prefix + [last]))
    ensures forall other :: IsDigit(other) ==> CheckDigit(prefix + [other]) == CheckDigit(prefix + [last])
  {
    forall other | IsDigit(other) ensures CheckDigit(prefix + [other]) == CheckDigit(prefix + [last]) {
      assert (prefix + [other])[..7] == prefix == (prefix + [last])[..7];
      WeightedSumOfPrefix(prefix + [other], prefix + [last], Multipliers);
    }
  }
}
