/**
 * The local validation path of `ViesManager`: split a combined VAT string
 * into country code and number, consult the exclusion table, find the
 * country's validator through a memo cache, and delegate to it.
 */
module Vies {
  import opened Wrappers
  import opened Text
  import opened Results
  import opened Validators

  // ---------------------------------------------------------------------------
  // Tables

  /** The text that follows an unknown code in its failure message. */
  const NotMemberState := " is not a valid ISO_3166-1 European member state."

  /** The one excluded country. */
  const Gb := ExcludedCountryInfo("GB", "Great Britain", "Brexit", "2021-01-01")

  /** `_excludedCountries`, a dictionary that compares its keys case-insensitively. */
  function ExcludedCountry(countryCode: string): (r: Option<ExcludedCountryInfo>)
    ensures r.Some? <==> Upper(countryCode) == Upper(Gb.code)
    ensures r.Some? ==> r.value.code == Upper(countryCode)
  {
    if Upper(countryCode) == "GB" then Some(Gb) else None
  }

  /**
   * The validator a code resolves to. It stands for the reflective lookup of
   * `Padi.Vies.Validators.{CODE}VatValidator` with case ignored; the table
   * holds exactly the validators of this model. The source passes
   * `throwOnError: true`, so there an unknown code raises instead of yielding
   * null; here it yields `None`, and the caller's "not a valid member state"
   * branch is what handles it.
   */
  function Lookup(countryCode: string): (r: Option<Country>)
    ensures forall c: Country :: r == Some(c) <==> CountryCode(c) == Upper(countryCode)
  {
    var key := Upper(countryCode);
    if key == "CY" then Some(CY)
    else if key == "CZ" then Some(CZ)
    else if key == "DE" then Some(DE)
    else if key == "HR" then Some(HR)
    else if key == "IT" then Some(IT)
    else if key == "RO" then Some(RO)
    else None
  }

  /** Codes that differ only in case resolve alike. */
  lemma LookupIgnoresCase(countryCode: string)
    ensures Lookup(Upper(countryCode)) == Lookup(countryCode)
    ensures ExcludedCountry(Upper(countryCode)) == ExcludedCountry(countryCode)
  {
  }

  /** An excluded code never reaches a validator. */
  lemma ExcludedHasNoValidator(countryCode: string)
    requires ExcludedCountry(countryCode).Some?
    ensures Lookup(countryCode).None?
  {
  }

  // ---------------------------------------------------------------------------
  // Input normalisation

  /** The `ViesValidationException`s that `SplitInput` raises. */
  datatype ViesValidationException = NullOrEmpty | TooShort(vat: string) {
    function Message(): string {
      match this
      case NullOrEmpty => "VAT number cannot be null or empty."
      case TooShort(vat) => "VAT number '" + vat + "' is too short."
    }
  }

  /**
   * `SplitInput`: the sanitized input, split after its second character.
   * Input that is empty or only whitespace raises `NullOrEmpty`; input that
   * sanitizes to fewer than three characters raises `TooShort`.
   */
  function SplitInput(vat: string): (r: Result<(string, string), ViesValidationException>)
    ensures r == Err(NullOrEmpty) <==> IsNullOrWhiteSpace(vat)
    ensures r.Err? <==> |Sanitize(vat)| < 3
    ensures r.Err? && !IsNullOrWhiteSpace(vat) ==> r == Err(TooShort(Sanitize(vat)))
    ensures r.Ok? ==> |r.value.0| == 2 && |r.value.1| >= 1 && r.value.0 + r.value.1 == Sanitize(vat)
  {
    var s := Sanitize(vat);
    TrimmedWhiteSpace(s);
    assert IsNullOrWhiteSpace(s) <==> IsNullOrWhiteSpace(vat);
    assert |s| >= 3 ==> s[..2] + s[2..] == s;
    if IsNullOrWhiteSpace(s) then Err(NullOrEmpty)
    else if |s| < 3 then Err(TooShort(s))
    else Ok((s[..2], s[2..]))
  }

  /** The code `SplitInput` cuts off is already upper case, so it is its own cache key. */
  lemma SplitCodeIsUpper(vat: string)
    ensures SplitInput(vat).Ok? ==> Upper(SplitInput(vat).value.0) == SplitInput(vat).value.0
  {
    if SplitInput(vat).Ok? {
      UpperPrefix(Sanitize(vat), 2);
    }
  }

  // ---------------------------------------------------------------------------
  // What the two `IsValid` overloads answer

  /**
   * `IsValid(countryCode, vatNumber)`: the exclusion first, then the
   * validator, then its verdict. A success means the code is neither
   * excluded nor unknown and the number matched that country's format.
   */
  function Outcome(countryCode: string, vatNumber: string): (r: ValidationResult)
    ensures r == Success ==>
      ExcludedCountry(countryCode).None? && Lookup(countryCode).Some?
      && MatchesFormat(Lookup(countryCode).value, vatNumber)
  {
    match ExcludedCountry(countryCode)
    case Some(info) => Failed(Excluded(info))
    case None =>
      match Lookup(countryCode)
      case None => Failed(Message(countryCode + NotMemberState))
      case Some(country) => Validators.Verdict(country, vatNumber)
  }

  /** `IsValid(vat)`: `SplitInput`, then the two-argument overload on the parts. */
  function OutcomeOf(vat: string): (r: Result<ValidationResult, ViesValidationException>)
    ensures r.Err? <==> SplitInput(vat).Err?
    ensures r.Ok? ==> r.value == Outcome(Sanitize(vat)[..2], Sanitize(vat)[2..])
    ensures r.Err? ==> r.error == SplitInput(vat).error
  {
    match SplitInput(vat)
    case Err(e) => Err(e)
    case Ok((code, number)) => Ok(Outcome(code, number))
  }

  /** An excluded code fails with its exclusion entry, whatever the number. */
  lemma ExcludedFails(countryCode: string, vatNumber: string)
    requires Upper(countryCode) == "GB"
    ensures Outcome(countryCode, vatNumber) == Failed(Excluded(Gb))
  {
  }

  /** `ZZ` is neither excluded nor known, so it fails as an unknown member state. */
  lemma UnknownCodeFails()
    ensures Outcome("ZZ", "123456") == Failed(Message("ZZ" + NotMemberState))
  {
    assert Upper("ZZ") == "ZZ";
    assert ExcludedCountry("ZZ").None? by { assert "ZZ"[0] != "GB"[0]; }
    assert Lookup("ZZ").None? by {
      forall c: Country ensures CountryCode(c) != "ZZ" {
        assert CountryCode(c)[0] != 'Z';
      }
    }
  }

  /** Input of three or more characters with no whitespace at its ends is upper-cased and split after two. */
  lemma SplitsCleanInput(vat: string)
    requires |vat| >= 3 && Trimmed(vat)
    ensures SplitInput(vat) == Ok((Upper(vat)[..2], Upper(vat)[2..]))
  {
  }

  /** A code and a number with no whitespace at the outer ends are split apart again, upper-cased. */
  lemma SplitsCodeAndNumber(code: string, number: string)
    requires |code| == 2 && number != [] && !IsWhiteSpace(code[0]) && !IsWhiteSpace(number[|number| - 1])
    ensures SplitInput(code + number) == Ok((Upper(code), Upper(number)))
  {
    var vat := code + number;
    assert vat[0] == code[0] && vat[|vat| - 1] == number[|number| - 1];
    SplitsCleanInput(vat);
    UpperAppend(code, number);
    assert (Upper(code) + Upper(number))[..2] == Upper(code);
    assert (Upper(code) + Upper(number))[2..] == Upper(number);
  }

  /** `DE` is neither excluded nor unknown, and `136695976` passes its checksum. */
  lemma GermanNumberAccepted()
    ensures Outcome("DE", "136695976") == Success
  {
    assert Upper("DE") == "DE";
    assert ExcludedCountry("DE").None? by { assert "DE"[0] != "GB"[0]; }
    assert Lookup("DE") == Some(DE);
    DeVatValidator.AcceptsExample();
  }

  /**
   * A code and a number with no whitespace at the outer ends are validated
   * as their upper-cased selves: `IsValid(code + number)` answers what
   * `IsValid(Upper(code), Upper(number))` does, without raising.
   */
  lemma OutcomeOfCodeAndNumber(code: string, number: string)
    requires |code| == 2 && number != [] && !IsWhiteSpace(code[0]) && !IsWhiteSpace(number[|number| - 1])
    ensures OutcomeOf(code + number) == Ok(Outcome(Upper(code), Upper(number)))
  {
    SplitsCodeAndNumber(code, number);
  }

  /**
   * The case of a known or excluded code does not matter to
   * `IsValid(countryCode, vatNumber)`; only the message for an unknown code
   * repeats the code as it was given.
   */
  lemma OutcomeIgnoresCase(countryCode: string, vatNumber: string)
    ensures ExcludedCountry(countryCode).Some? || Lookup(countryCode).Some? ==>
      Outcome(Upper(countryCode), vatNumber) == Outcome(countryCode, vatNumber)
    ensures ExcludedCountry(countryCode).None? && Lookup(countryCode).None? ==>
      Outcome(countryCode, vatNumber) == Failed(Message(countryCode + NotMemberState))
  {
  }

  /** `IsValid("de", "136695976")`: the lower-case code is matched, and the number passes. */
  lemma GermanExample()
    ensures Outcome("de", "136695976") == Success
  {
    assert Upper("de") == "DE";
    OutcomeIgnoresCase("de", "136695976");
    GermanNumberAccepted();
  }

  // ---------------------------------------------------------------------------
  // The validator cache and the façade

  /** Every cached validator sits under its own upper-case code, and only there. */
  ghost predicate CacheInvariant(cache: map<string, VatValidator>) {
    forall code :: code in cache ==> Upper(code) == code && Lookup(code) == Some(cache[code].country)
  }

  /** A country is cached at most once. */
  lemma AtMostOncePerCountry(cache: map<string, VatValidator>, a: string, b: string)
    requires CacheInvariant(cache) && a in cache && b in cache
    requires cache[a].country == cache[b].country
    ensures a == b
  {
  }

  /**
   * The process-wide state of `ViesManager`: the static `VatValidators`
   * dictionary, keyed case-insensitively (here by the upper-cased code).
   */
  class ViesManager {
    var validators: map<string, VatValidator>

    ghost predicate Valid()
      reads this
    {
      CacheInvariant(validators)
    }

    constructor ()
      ensures Valid() && validators == map[]
    {
      validators := map[];
    }

    /**
     * `GetValidator`: a cached validator is returned as it is; otherwise a
     * new one is built, added under the code and returned. An unknown code
     * yields null and leaves the cache as it was.
     */
    method GetValidator(countryCode: string) returns (validator: VatValidator?)
      requires Valid()
      modifies this
      ensures Valid()
      ensures Upper(countryCode) in old(validators) ==>
        validator == old(validators)[Upper(countryCode)] && validators == old(validators)
      ensures Upper(countryCode) !in old(validators) && Lookup(countryCode).None? ==>
        validator == null && validators == old(validators)
      ensures Upper(countryCode) !in old(validators) && Lookup(countryCode).Some? ==>
        validator != null && fresh(validator)
        && validators == old(validators)[Upper(countryCode) := validator]
      ensures validator != null ==> Lookup(countryCode) == Some(validator.country)
    {
      var key := Upper(countryCode);
      LookupIgnoresCase(countryCode);
      if key in validators {
        return validators[key];
      }
      var country := Lookup(countryCode);
      if country.None? {
        return null;
      }
      validator := new VatValidator(country.value);
      validators := validators[key := validator];
    }

    /**
     * `IsValid(countryCode, vatNumber)`. The answer does not depend on what
     * the cache held; an excluded code leaves the cache untouched, and the
     * cache only ever gains entries.
     */
    method IsValidNumber(countryCode: string, vatNumber: string) returns (r: ValidationResult)
      requires Valid()
      modifies this
      ensures Valid()
      ensures r == Outcome(countryCode, vatNumber)
      ensures ExcludedCountry(countryCode).Some? ==>
        r == Failed(Excluded(ExcludedCountry(countryCode).value)) && validators == old(validators)
      ensures ExcludedCountry(countryCode).None? && Lookup(countryCode).None? ==>
        r == Failed(Message(countryCode + NotMemberState)) && validators == old(validators)
      ensures ExcludedCountry(countryCode).None? && Lookup(countryCode).Some? ==>
        r == Validators.Verdict(Lookup(countryCode).value, vatNumber)
        && Upper(countryCode) in validators && validators[Upper(countryCode)].country == Lookup(countryCode).value
      ensures forall code :: code in old(validators) ==> code in validators && validators[code] == old(validators)[code]
      ensures validators.Keys <= old(validators).Keys + {Upper(countryCode)}
    {
      var excluded := ExcludedCountry(countryCode);
      if excluded.Some? {
        return Failed(Excluded(excluded.value));
      }
      var validator := GetValidator(countryCode);
      if validator == null {
        return Failed(Message(countryCode + NotMemberState));
      }
      r := validator.Validate(vatNumber);
    }

    /** `IsValid(vat)`: split the input (raising on bad input), then validate the parts. */
    method IsValid(vat: string) returns (r: Result<ValidationResult, ViesValidationException>)
      requires Valid()
      modifies this
      ensures Valid()
      ensures r == OutcomeOf(vat)
      ensures SplitInput(vat).Err? ==> validators == old(validators)
      ensures forall code :: code in old(validators) ==> code in validators && validators[code] == old(validators)[code]
      ensures SplitInput(vat).Ok? ==> validators.Keys <= old(validators).Keys + {SplitInput(vat).value.0}
      ensures SplitInput(vat).Ok? ==>
        var code := SplitInput(vat).value.0;
        (ExcludedCountry(code).Some? || Lookup(code).None? ==> validators == old(validators))
        && (ExcludedCountry(code).None? && Lookup(code).Some? ==>
              code in validators && validators[code].country == Lookup(code).value)
    {
      var split := SplitInput(vat);
      if split.Err? {
        return Err(split.error);
      }
      var (code, number) := split.value;
      SplitCodeIsUpper(vat);
      var result := IsValidNumber(code, number);
      r := Ok(result);
    }
  }
}
