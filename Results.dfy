/**
 * The values a local validation produces: `VatValidationResult` and the
 * entry of the exclusion table whose description a failure can carry.
 */
module Results {

  /** An entry of the exclusion table: a code that no longer takes part in VIES. */
  datatype ExcludedCountryInfo = ExcludedCountryInfo(code: string, name: string, reason: string, date: string)

  /**
   * Why a validation failed. `Message` carries the literal text the source
   * builds; `Excluded` stands for the text of `ExcludedCountryInfo.ToString()`;
   * `FormatMismatch` for the message of a number the country's pattern rejects.
   */
  datatype FailReason =
    | Message(text: string)
    | Excluded(info: ExcludedCountryInfo)
    | FormatMismatch

  /** `VatValidationResult.Success()` or `VatValidationResult.Failed(reason)`. */
  datatype ValidationResult = Success | Failed(reason: FailReason)
}
