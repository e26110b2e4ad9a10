/** The Italian validator: eleven digits, an office code and a Luhn-style check digit. */
module ItVatValidator {
  import opened Text
  import opened Results

  /** `^\d{11}$`: exactly eleven digits. */
  predicate MatchesFormat(vat: string) {
    |vat| == 11 && AllDigits(vat)
  }

  /** The weights of the first ten digits. */
  const Multipliers: seq<int> := [1, 2, 1, 2, 1, 2, 1, 2, 1, 2]

  /** A weighted digit above 9 is folded into the sum of its two digits. */
  function Fold(t: int): (f: int)
    requires 0 <= t <= 18
    ensures 0 <= f <= 9
    ensures f % 9 == t % 9
  {
    if t > 9 then t / 10 + t % 10 else t
  }

  /** The folded weighted term of the digit at `index`. */
  function Term(c: char, index: nat): (t: int)
    requires IsDigit(c) && index < |Multipliers|
    ensures 0 <= t <= 9
  {
    Fold(DigitValue(c) * Multipliers[index])
  }

  /** The sum of the folded terms of the digits of `s`. */
  function FoldedSum(s: string): (sum: int)
    requires |s| <= |Multipliers| && AllDigits(s)
    ensures 0 <= sum <= 9 * |s|
    decreases |s|
  {
    if |s| == 0 then 0 else FoldedSum(s[..|s| - 1]) + Term(s[|s| - 1], |s| - 1)
  }

  /** The check digit of ten leading digits: `10 - sum % 10`, with 10 written as 0. */
  function CheckDigit(prefix: string): (d: int)
    requires |prefix| == 10 && AllDigits(prefix)
    ensures 0 <= d <= 9
    ensures (FoldedSum(prefix) + d) % 10 == 0
  {
    var d := 10 - FoldedSum(prefix) % 10;
    if d > 9 then 0 else d
  }

  /** The office codes the source admits: 1..201, 888 and 999. */
  predicate IsOfficeCode(office: int)
    ensures IsOfficeCode(office) <==> 1 <= office <= 201 || office == 888 || office == 999
  {
    !((office < 1 || office > 201) && office != 999 && office != 888)
  }

  /** What `OnValidate` answers for a number that matched the format. */
  function Verdict(vat: string): ValidationResult
    requires MatchesFormat(vat)
  {
    if NumberValue(vat[..7]) == 0 then Failed(Message(""))
    else if !IsOfficeCode(NumberValue(vat[7..10])) then Failed(Message(""))
    else if CheckDigit(vat[..10]) == DigitValue(vat[10]) then Success
    else Failed(Message("Invalid IT vat: checkValue"))
  }

  /** The checksum: the two prefix checks, then the folded weighted sum and the check digit. */
  method OnValidate(vat: string) returns (r: ValidationResult)
    requires MatchesFormat(vat)
    ensures r == Verdict(vat)
  {
    if NumberValue(vat[..7]) == 0 {
      return Failed(Message(""));
    }
    var temp := NumberValue(vat[7..10]);
    if (temp < 1 || temp > 201) && temp != 999 && temp != 888 {
      return Failed(Message(""));
    }
    var index := 0;
    var sum := 0;
    while index < |Multipliers|
      invariant 0 <= index <= |Multipliers|
      invariant sum == FoldedSum(vat[..index])
    {
      assert vat[..index + 1][..index] == vat[..index];
      var m := Multipliers[index];
      temp := DigitValue(vat[index]) * m;
      index := index + 1;
      sum := sum + if temp > 9 then temp / 10 + temp % 10 else temp;
    }
    var checkDigit := 10 - sum % 10;
    if checkDigit > 9 {
      checkDigit := 0;
    }
    var isValid := checkDigit == DigitValue(vat[10]);
    r := if !isValid then Failed(Message("Invalid IT vat: checkValue")) else Success;
  }

  /** Seven leading zeros fail with an empty message, whatever follows. */
  lemma RejectsZeroPrefix(vat: string)
    requires MatchesFormat(vat) && forall i :: 0 <= i < 7 ==> vat[i] == '0'
    ensures Verdict(vat) == Failed(Message(""))
  {
    NumberValueZero(vat[..7]);
  }

  /** An office code (digits 8 to 10) outside 1..201 that is neither 888 nor 999 fails. */
  lemma RejectsOfficeCode(vat: string)
    requires MatchesFormat(vat)
    requires var office := 100 * DigitValue(vat[7]) + 10 * DigitValue(vat[8]) + DigitValue(vat[9]);
      (office < 1 || office > 201) && office != 999 && office != 888
    ensures Verdict(vat) == Failed(Message(""))
  {
    NumberValueThree(vat[7..10]);
  }

  /** Once the two prefix checks pass, exactly one eleventh digit is accepted. */
  lemma UniqueCheckDigit(prefix: string, last: char)
    requires |prefix| == 10 && AllDigits(prefix) && IsDigit(last)
    requires exists i :: 0 <= i < 7 && prefix[i] != '0'
    requires IsOfficeCode(100 * DigitValue(prefix[7]) + 10 * DigitValue(prefix[8]) + DigitValue(prefix[9]))
    ensures MatchesFormat(prefix + [last])
    ensures Verdict(prefix + [last]) == Success <==> last == DigitChar(CheckDigit(prefix))
  {
    var vat := prefix + [last];
    assert vat[..10] == prefix;
    assert vat[..7] == prefix[..7];
    assert vat[7..10] == prefix[7..10];
    NumberValueZero(prefix[..7]);
    NumberValueThree(prefix[7..10]);
  }
}
