/** ValidationUtils: single-value checks that either return the value in its
    normal form or fail with a ValidationError naming the field and carrying the
    rejected value. `ObjectId.isValid` is the parameter `isValid`. */
module ValidationUtils {
  import opened Wrappers
  import opened JsText
  import opened Js
  import opened Validation

  /** The error every check raises: the message, the field name and the raw value. */
  function Reject<T>(message: string, fieldName: string, value: Value): Result<T, ValidationError> {
    Failure(ValidationError(message, Some(fieldName), value))
  }

  /** A failure that names `fieldName` and carries `value`. */
  predicate Blames<T>(r: Result<T, ValidationError>, fieldName: string, value: Value) {
    r.Failure? ==> r.error.field == Some(fieldName) && r.error.value == value
  }

  /** validateObjectId: an id the driver accepts becomes an ObjectId. */
  function ValidateObjectId(id: Value, fieldName: string, isValid: Value -> bool): (r: Result<Value, ValidationError>)
    ensures r.Success? <==> isValid(id)
    ensures r.Success? ==> r.value.Oid? && (id.Oid? ==> r.value == id)
    ensures r.Failure? ==> r.error.message == "Invalid " + fieldName + " format"
    ensures Blames(r, fieldName, id)
  {
    if !isValid(id) then Reject("Invalid " + fieldName + " format", fieldName, id)
    else Success(AsObjectId(id))
  }

  /** `maxLength && ...`: a missing or zero maximum sets no upper bound. */
  predicate HasMaximum(maxLength: Option<int>) {
    maxLength.Some? && maxLength.value != 0
  }

  /** sanitizeString: a string whose trimmed length, in UTF-16 code units,
      lies within the bounds, returned trimmed. */
  function SanitizeString(value: Value, fieldName: string, minLength: int, maxLength: Option<int>): (r: Result<string, ValidationError>)
    ensures r.Success? <==>
              value.Str? && minLength <= Utf16Length(Trim(value.s))
              && (HasMaximum(maxLength) ==> Utf16Length(Trim(value.s)) <= maxLength.value)
    ensures r.Success? ==> r.value == Trim(value.s)
    ensures Blames(r, fieldName, value)
  {
    if !value.Str? then Reject(fieldName + " must be a string", fieldName, value)
    else
      var trimmed := Trim(value.s);
      if Utf16Length(trimmed) < minLength then
        Reject(fieldName + " must be at least " + IntToString(minLength) + " characters", fieldName, value)
      else if HasMaximum(maxLength) && Utf16Length(trimmed) > maxLength.value then
        Reject(fieldName + " must not exceed " + IntToString(maxLength.value) + " characters", fieldName, value)
      else Success(trimmed)
  }

  /** The bounds are checked in order: a value that is too short is reported as
      such even when the maximum is also violated, which can happen only when
      the maximum is below the minimum. */
  lemma SanitizeStringMessages(value: Value, fieldName: string, minLength: int, maxLength: Option<int>)
    ensures !value.Str? ==> SanitizeString(value, fieldName, minLength, maxLength).error.message
                            == fieldName + " must be a string"
    ensures value.Str? && Utf16Length(Trim(value.s)) < minLength ==>
              SanitizeString(value, fieldName, minLength, maxLength).error.message
              == fieldName + " must be at least " + IntToString(minLength) + " characters"
    ensures value.Str? && minLength <= Utf16Length(Trim(value.s)) && HasMaximum(maxLength) && Utf16Length(Trim(value.s)) > maxLength.value ==>
              SanitizeString(value, fieldName, minLength, maxLength).error.message
              == fieldName + " must not exceed " + IntToString(maxLength.value) + " characters"
  {
  }

  /** Sanitizing is idempotent: the sanitized string passes the same check and
      comes back unchanged. */
  lemma SanitizeStringIdempotent(value: Value, fieldName: string, minLength: int, maxLength: Option<int>)
    requires SanitizeString(value, fieldName, minLength, maxLength).Success?
    ensures SanitizeString(Str(SanitizeString(value, fieldName, minLength, maxLength).value), fieldName, minLength, maxLength)
         == SanitizeString(value, fieldName, minLength, maxLength)
  {
    TrimIdempotent(value.s);
  }

  /** Surrounding white space never decides the outcome: a padded string is
      accepted exactly when its trimmed form is, and yields the same result. */
  lemma SanitizeStringIgnoresPadding(s: string, fieldName: string, minLength: int, maxLength: Option<int>)
    ensures SanitizeString(Str(s), fieldName, minLength, maxLength).Success?
        <==> SanitizeString(Str(Trim(s)), fieldName, minLength, maxLength).Success?
    ensures SanitizeString(Str(s), fieldName, minLength, maxLength).Success? ==>
              SanitizeString(Str(s), fieldName, minLength, maxLength).value
              == SanitizeString(Str(Trim(s)), fieldName, minLength, maxLength).value
  {
    TrimIdempotent(s);
  }

  /** validateEnum: a value from the list is returned as it is. */
  function ValidateEnum(value: Value, validValues: seq<string>, fieldName: string): (r: Result<Value, ValidationError>)
    ensures r.Success? <==> Listed(value, validValues)
    ensures r.Success? ==> r.value == value
    ensures r.Failure? ==> r.error.message == EnumMessage(fieldName, validValues)
    ensures Blames(r, fieldName, value)
  {
    if !Listed(value, validValues) then Reject(EnumMessage(fieldName, validValues), fieldName, value)
    else Success(value)
  }

  /** A rejected value is told every value it could have been. */
  lemma ValidateEnumNamesChoices(value: Value, validValues: seq<string>, fieldName: string, i: nat)
    requires i < |validValues|
    requires ValidateEnum(value, validValues, fieldName).Failure?
    ensures IsInfix(validValues[i], ValidateEnum(value, validValues, fieldName).error.message)
  {
    PrefixedJoinContainsEach(fieldName + " must be one of: ", validValues, ", ", i);
  }

  /** `min !== null && num < min` and `max !== null && num > max`. */
  predicate WithinBounds(n: real, min: Option<real>, max: Option<real>) {
    (min.Some? ==> min.value <= n) && (max.Some? ==> n <= max.value)
  }

  /** The bound checks shared by validateInteger and validateNumber, in the
      source's order. */
  function CheckBounds(n: real, value: Value, fieldName: string, min: Option<real>, max: Option<real>): (r: Result<real, ValidationError>)
    ensures r.Success? <==> WithinBounds(n, min, max)
    ensures r.Success? ==> r.value == n
    ensures Blames(r, fieldName, value)
  {
    if min.Some? && n < min.value then
      Reject(fieldName + " must be at least " + NumberToString(min.value), fieldName, value)
    else if max.Some? && n > max.value then
      Reject(fieldName + " must not exceed " + NumberToString(max.value), fieldName, value)
    else Success(n)
  }

  /** validateInteger: `Number(value)` when it is an integer within the bounds. */
  function ValidateInteger(value: Value, fieldName: string, min: Option<real>, max: Option<real>): (r: Result<real, ValidationError>)
    ensures r.Success? <==>
              ToNumber(value).Some? && IsInteger(ToNumber(value).value) && WithinBounds(ToNumber(value).value, min, max)
    ensures r.Success? ==> Some(r.value) == ToNumber(value)
    ensures r.Failure? && (ToNumber(value).None? || !IsInteger(ToNumber(value).value)) ==>
              r.error.message == fieldName + " must be an integer"
    ensures Blames(r, fieldName, value)
  {
    match ToNumber(value)
    case None => Reject(fieldName + " must be an integer", fieldName, value)
    case Some(n) =>
      if !IsInteger(n) then Reject(fieldName + " must be an integer", fieldName, value)
      else CheckBounds(n, value, fieldName, min, max)
  }

  /** validateNumber: `Number(value)` when it is not NaN and lies within the bounds. */
  function ValidateNumber(value: Value, fieldName: string, min: Option<real>, max: Option<real>): (r: Result<real, ValidationError>)
    ensures r.Success? <==> ToNumber(value).Some? && WithinBounds(ToNumber(value).value, min, max)
    ensures r.Success? ==> Some(r.value) == ToNumber(value)
    ensures ToNumber(value).None? ==> r.error.message == fieldName + " must be a number"
    ensures Blames(r, fieldName, value)
  {
    match ToNumber(value)
    case None => Reject(fieldName + " must be a number", fieldName, value)
    case Some(n) => CheckBounds(n, value, fieldName, min, max)
  }

  /** Every integer accepted by validateInteger is accepted by validateNumber
      with the same bounds and the same result; the converse fails exactly on
      the fractional numbers. */
  lemma IntegerIsNumber(value: Value, fieldName: string, min: Option<real>, max: Option<real>)
    ensures ValidateInteger(value, fieldName, min, max).Success? ==>
              ValidateNumber(value, fieldName, min, max) == ValidateInteger(value, fieldName, min, max)
    ensures ValidateNumber(value, fieldName, min, max).Success? ==>
              (ValidateInteger(value, fieldName, min, max).Success? <==> IsInteger(ValidateNumber(value, fieldName, min, max).value))
  {
  }

  /** With an integer lower bound, validateInteger accepts exactly the values the
      record validators' integer blocks accept. */
  lemma ValidateIntegerAgreesWithBlocks(value: Value, fieldName: string, least: int, most: Option<int>)
    ensures ValidateInteger(value, fieldName, Some(least as real), if most.Some? then Some(most.value as real) else None).Success?
        <==> IntegerIn(value, least, most)
  {
  }

  /** A form field holding the decimal text of an integer in bounds is accepted
      and converted back to that integer. */
  lemma ValidateIntegerReadsNumerals(i: int, fieldName: string, min: Option<real>, max: Option<real>)
    requires WithinBounds(i as real, min, max)
    ensures ValidateInteger(Str(IntToString(i)), fieldName, min, max) == Success(i as real)
  {
    IntegerStringRoundTrip(i);
    assert IsInteger(i as real);
  }
}
