/**
 The acceptance rule for the password length (the `PasswordValidation`
 schema): the value is required, must be a number, and must lie in the
 inclusive range 4 to 16. The schema has no integer test, so a fractional
 value inside the range is accepted.
 */
module Validation {

  /** The length field after the schema's cast to a number: left blank, text
      that is not a number (`NaN`), or a numeric value. The cast deletes every
      whitespace character before converting, so text such as `1 0` casts to
      10; `innerSpace` records that the text had whitespace between its
      characters, which the submit handler's own `+text` conversion does not
      accept (it yields `NaN`). */
  datatype LengthField = Blank | NotANumber | Number(value: real, innerSpace: bool)

  /** Why a length field is rejected, in the order the schema tests it. */
  datatype LengthError = Required | NotNumeric | TooShort | TooLong

  datatype Result<+T, +E> = Ok(value: T) | Err(error: E)

  const MinLength: real := 4.0
  const MaxLength: real := 16.0

  /** The range predicate that enables generation: present, numeric, and 4 <= n <= 16. */
  predicate Accepted(f: LengthField) {
    f.Number? && MinLength <= f.value <= MaxLength
  }

  /** The schema's verdict: the accepted value, or the first test the field fails. */
  function Validate(f: LengthField): (r: Result<real, LengthError>)
    ensures r.Ok? <==> Accepted(f)
    ensures r.Ok? ==> r.value == f.value
    ensures r == Err(Required) <==> f.Blank?
    ensures r == Err(NotNumeric) <==> f.NotANumber?
    ensures r == Err(TooShort) <==> f.Number? && f.value < MinLength
    ensures r == Err(TooLong) <==> f.Number? && f.value > MaxLength
  {
    match f
    case Blank => Err(Required)
    case NotANumber => Err(NotNumeric)
    case Number(n, _) =>
      if n < MinLength then Err(TooShort)
      else if n > MaxLength then Err(TooLong)
      else Ok(n)
  }

  /** The boundary cases: blank, 3 and 17 are rejected with their reasons; 4, 16,
      the fraction 4.5 and the spaced text `1 0` are accepted. */
  lemma BoundaryCases()
    ensures Validate(Blank) == Err(Required)
    ensures Validate(Number(3.0, false)) == Err(TooShort)
    ensures Validate(Number(17.0, false)) == Err(TooLong)
    ensures Validate(Number(4.0, false)) == Ok(4.0)
    ensures Validate(Number(16.0, false)) == Ok(16.0)
    ensures Validate(Number(4.5, false)) == Ok(4.5)
    ensures Validate(Number(10.0, true)) == Ok(10.0)
  {
  }
}
