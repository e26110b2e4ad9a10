/**
 * The validators behind one interface: each one first matches the number
 * against its country's format and runs its checksum only on a match.
 */
module Validators {
  import opened Text
  import opened Results
  import CyVatValidator
  import CzVatValidator
  import DeVatValidator
  import HrVatValidator
  import ItVatValidator
  import RoVatValidator

  /** The countries whose validators this model holds. */
  datatype Country = CY | CZ | DE | HR | IT | RO

  /** The two-letter code each validator registers as its `CountryCode`. */
  function CountryCode(country: Country): (code: string)
    ensures |code| == 2 && Upper(code) == code
  {
    match country
    case CY => "CY"
    case CZ => "CZ"
    case DE => "DE"
    case HR => "HR"
    case IT => "IT"
    case RO => "RO"
  }

  /** No two validators register the same code. */
  lemma CountryCodeInjective(a: Country, b: Country)
    ensures CountryCode(a) == CountryCode(b) <==> a == b
  {
  }

  /** The country's format pattern. */
  predicate MatchesFormat(country: Country, vat: string) {
    match country
    case CY => CyVatValidator.MatchesFormat(vat)
    case CZ => CzVatValidator.MatchesFormat(vat)
    case DE => DeVatValidator.MatchesFormat(vat)
    case HR => HrVatValidator.MatchesFormat(vat)
    case IT => ItVatValidator.MatchesFormat(vat)
    case RO => RoVatValidator.MatchesFormat(vat)
  }

  /**
   * What `Validate` answers: a format failure when the pattern does not
   * match, otherwise the country's checksum verdict. A success therefore
   * always means the format matched.
   */
  function Verdict(country: Country, vat: string): (r: ValidationResult)
    ensures r == Success ==> MatchesFormat(country, vat)
    ensures !MatchesFormat(country, vat) ==> r == Failed(FormatMismatch)
  {
    if !MatchesFormat(country, vat) then Failed(FormatMismatch)
    else
      match country
      case CY => CyVatValidator.Verdict(vat)
      case CZ => CzVatValidator.OnValidate(vat)
      case DE => DeVatValidator.Verdict(vat)
      case HR => HrVatValidator.Verdict(vat)
      case IT => ItVatValidator.Verdict(vat)
      case RO => RoVatValidator.OnValidate(vat)
  }

  /** A country's validator: immutable once built. */
  class VatValidator {
    const country: Country

    constructor (country: Country)
      ensures this.country == country
    {
      this.country := country;
    }

    /** Match the format, and run the checksum only when it matches. */
    method Validate(vat: string) returns (r: ValidationResult)
      ensures r == Verdict(country, vat)
      ensures !MatchesFormat(country, vat) ==> r == Failed(FormatMismatch)
    {
      if !MatchesFormat(country, vat) {
        return Failed(FormatMismatch);
      }
      match country
      case CY => r := CyVatValidator.OnValidate(vat);
      case CZ => r := CzVatValidator.OnValidate(vat);
      case DE => r := DeVatValidator.OnValidate(vat);
      case HR => r := HrVatValidator.OnValidate(vat);
      case IT => r := ItVatValidator.OnValidate(vat);
      case RO => r := RoVatValidator.OnValidate(vat);
    }
  }
}
