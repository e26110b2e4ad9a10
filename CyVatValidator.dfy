/** The Cypriot validator: eight digits and a check letter. */
module CyVatValidator {
  import opened Text
  import opened Results

  /**
   * The first character of `^([0-59]\d{7}[A-Z])$`. The class `[0-59]` is the
   * range 0-5 together with the single digit 9, so 6, 7 and 8 are refused.
   */
  predicate IsFirstDigit(c: char)
    ensures IsFirstDigit(c) <==> IsDigit(c) && c != '6' && c != '7' && c != '8'
  {
    '0' <= c <= '5' || c == '9'
  }

  predicate IsUpperLetter(c: char) {
    'A' <= c <= 'Z'
  }

  /** `^([0-59]\d{7}[A-Z])$`: nine characters, eight digits then an upper-case letter. */
  predicate MatchesFormat(vat: string)
    ensures MatchesFormat(vat) <==>
      |vat| == 9 && AllDigits(vat[..8]) && vat[0] != '6' && vat[0] != '7' && vat[0] != '8' && IsUpperLetter(vat[8])
  {
    |vat| == 9 && IsFirstDigit(vat[0]) && (forall i :: 1 <= i < 8 ==> IsDigit(vat[i])) && IsUpperLetter(vat[8])
  }

  /** The substitution applied to the digits at even positions. */
  function Substitute(d: int): (t: int)
    requires 0 <= d <= 9
    ensures 0 <= t <= 21
  {
    match d
    case 0 => 1
    case 1 => 0
    case 2 => 5
    case 3 => 7
    case 4 => 9
    case _ => d * 2 + 3
  }

  /** The contribution of the digit at `index`: substituted at even positions, as-is at odd ones. */
  function Term(c: char, index: nat): (t: int)
    requires IsDigit(c)
    ensures 0 <= t <= (if index % 2 == 0 then 21 else 9)
  {
    if index % 2 == 0 then Substitute(DigitValue(c)) else DigitValue(c)
  }

  /**
   * The sum of the terms of the digits of `s`. Each even position adds at
   * most 21 and each odd one at most 9, so eight digits sum to at most 120.
   */
  function CheckSum(s: string): (sum: int)
    requires AllDigits(s)
    ensures 0 <= sum <= 21 * ((|s| + 1) / 2) + 9 * (|s| / 2)
    decreases |s|
  {
    if |s| == 0 then 0 else CheckSum(s[..|s| - 1]) + Term(s[|s| - 1], |s| - 1)
  }

  /** The check letter of eight leading digits: `'A' + sum % 26`. */
  function CheckLetter(prefix: string): (c: char)
    requires |prefix| == 8 && AllDigits(prefix)
    ensures IsUpperLetter(c)
    ensures c as int - 'A' as int == CheckSum(prefix) % 26
  {
    ('A' as int + CheckSum(prefix) % 26) as char
  }

  lemma LeadingDigits(vat: string)
    requires MatchesFormat(vat)
    ensures AllDigits(vat[..8]) && AllDigits(vat[..2])
  {
  }

  /** What `OnValidate` answers for a number that matched the format. */
  function Verdict(vat: string): ValidationResult
    requires MatchesFormat(vat)
  {
    LeadingDigits(vat);
    if NumberValue(vat[..2]) == 12 then Failed(Message("CY vat first 2 characters cannot be 12"))
    else if vat[8] == CheckLetter(vat[..8]) then Success
    else Failed(Message("Invalid CY vat: checkValue"))
  }

  /** The checksum: refuse a leading 12, then sum the eight terms and compare the letter. */
  method OnValidate(vat: string) returns (r: ValidationResult)
    requires MatchesFormat(vat)
    ensures r == Verdict(vat)
  {
    LeadingDigits(vat);
    if NumberValue(vat[..2]) == 12 {
      return Failed(Message("CY vat first 2 characters cannot be 12"));
    }
    var result := 0;
    for index := 0 to 8
      invariant result == CheckSum(vat[..index])
    {
      assert vat[..index + 1][..index] == vat[..index];
      var temp := DigitValue(vat[index]);
      if index % 2 == 0 {
        if temp == 0 {
          temp := 1;
        } else if temp == 1 {
          temp := 0;
        } else if temp == 2 {
          temp := 5;
        } else if temp == 3 {
          temp := 7;
        } else if temp == 4 {
          temp := 9;
        } else {
          temp := temp * 2 + 3;
        }
      }
      result := result + temp;
    }
    var checkDigit := result % 26;
    var isValid := vat[8] as int == checkDigit + 65;
    r := if !isValid then Failed(Message("Invalid CY vat: checkValue")) else Success;
  }

  /** A number starting with 12 fails, whatever follows. */
  lemma RejectsTwelve(vat: string)
    requires MatchesFormat(vat) && vat[0] == '1' && vat[1] == '2'
    ensures Verdict(vat) == Failed(Message("CY vat first 2 characters cannot be 12"))
  {
    NumberValueTwo(vat[..2]);
  }

  /** For eight leading digits that do not start with 12, exactly one letter is accepted. */
  lemma UniqueCheckLetter(prefix: string, last: char)
    requires |prefix| == 8 && IsFirstDigit(prefix[0]) && AllDigits(prefix) && IsUpperLetter(last)
    requires !(prefix[0] == '1' && prefix[1] == '2')
    ensures MatchesFormat(prefix + [last])
    ensures Verdict(prefix + [last]) == Success <==> last == CheckLetter(prefix)
  {
    var vat := prefix + [last];
    assert vat[..8] == prefix;
    assert vat[..2] == prefix[..2];
    NumberValueTwo(prefix[..2]);
  }
}
