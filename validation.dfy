/**
 * The `validate` callback of App.js: the numeric-or-"Default" rule on the record-range
 * fields, applied to the sample range only when samples are requested. Errors are
 * accumulated in the renderer's error object, which `validate` updates in place.
 */
module Validation {
  import opened Wrappers
  import opened Form

  const ErrorMessage := "Must be 'Default' or a positive integer"

  /** The fields checked on every call, in the order they are checked. */
  const NumericFields: seq<string> := [PageSetsPerJob, StartRecord, EndRecord]

  /** The fields checked only when sample output is requested. */
  const SampleRangeFields: seq<string> := [SampleStartRecord, SampleEndRecord]

  // ---------------------------------------------------------------------------
  // The pattern ^[1-9]\d*$
  // ---------------------------------------------------------------------------

  predicate IsDigit(c: char) {
    '0' <= c <= '9'
  }

  predicate AllDigits(s: string) {
    forall i :: 0 <= i < |s| ==> IsDigit(s[i])
  }

  /** `/^[1-9]\d*$/.test(s)`: a non-zero digit followed by any number of digits. */
  predicate MatchesPositiveInt(s: string)
    ensures MatchesPositiveInt(s) ==> |s| >= 1 && s[0] != '0' && AllDigits(s)
  {
    |s| >= 1 && '1' <= s[0] <= '9' && AllDigits(s[1..])
  }

  function DigitChar(d: nat): char
    requires d < 10
  {
    ('0' as int + d) as char
  }

  /** The usual decimal spelling of a natural number: the independent meaning of "positive integer". */
  function Decimal(n: nat): (s: string)
    ensures |s| >= 1 && AllDigits(s)
  {
    if n < 10 then [DigitChar(n)] else Decimal(n / 10) + [DigitChar(n % 10)]
  }

  /** The number a digit string denotes. */
  function DigitsValue(s: string): nat
    requires AllDigits(s)
  {
    if s == [] then 0 else DigitsValue(s[..|s| - 1]) * 10 + (s[|s| - 1] as int - '0' as int)
  }

  /** Every positive integer, written out in decimal, passes the pattern. */
  lemma {:induction false} DecimalMatches(n: nat)
    requires n >= 1
    ensures MatchesPositiveInt(Decimal(n))
  {
    if n >= 10 {
      DecimalMatches(n / 10);
      var s := Decimal(n);
      assert s[0] == Decimal(n / 10)[0];
    }
  }

  /** Every string the pattern accepts is the decimal spelling of a positive integer. */
  lemma {:induction false} MatchedIsDecimal(s: string)
    requires MatchesPositiveInt(s)
    ensures DigitsValue(s) >= 1 && Decimal(DigitsValue(s)) == s
  {
    if |s| > 1 {
      var front := s[..|s| - 1];
      assert front[1..] == s[1..][..|s| - 2];
      MatchedIsDecimal(front);
      var v := DigitsValue(front);
      var d := s[|s| - 1] as int - '0' as int;
      var n := v * 10 + d;
      assert n / 10 == v && n % 10 == d;
      assert Decimal(n) == Decimal(v) + [DigitChar(d)];
      assert s == front + [s[|s| - 1]];
    }
  }

  /** The pattern accepts exactly the decimal spellings of the positive integers. */
  lemma MatchesIffDecimal(s: string)
    ensures MatchesPositiveInt(s) <==> exists n: nat :: n >= 1 && s == Decimal(n)
  {
    if MatchesPositiveInt(s) {
      MatchedIsDecimal(s);
    }
    forall n: nat | n >= 1 && s == Decimal(n) ensures MatchesPositiveInt(s) {
      DecimalMatches(n);
    }
  }

  /** The pattern on the inputs the form is known to meet. */
  lemma PatternExamples()
    ensures !MatchesPositiveInt("007") && !MatchesPositiveInt("0")
    ensures !MatchesPositiveInt("") && !MatchesPositiveInt("-1")
    ensures MatchesPositiveInt("1") && MatchesPositiveInt("42")
  {
  }

  // ---------------------------------------------------------------------------
  // Errors as a value
  // ---------------------------------------------------------------------------

  /** The error lists by field; a field without an entry has no errors. */
  type ErrorMap = map<string, seq<string>>

  function Entry(errors: ErrorMap, field: string): Option<seq<string>> {
    if field in errors then Some(errors[field]) else None
  }

  function ErrorsOf(errors: ErrorMap, field: string): seq<string> {
    if field in errors then errors[field] else []
  }

  /**
   * The condition under which `validate` adds the message for a value: it is defined, it
   * is not "Default", and it is not the decimal spelling of any positive integer.
   */
  predicate FailsRule(v: Option<string>)
    ensures FailsRule(v) <==>
      v.Some? && v.value != "Default" && forall n: nat :: n >= 1 ==> Decimal(n) != v.value
  {
    v != Some("Default") && v != None && (MatchesIffDecimal(v.value); !MatchesPositiveInt(v.value))
  }

  /** `errors[field].addError(...)` as a map update. */
  function AddedError(errors: ErrorMap, field: string, message: string): ErrorMap {
    errors[field := ErrorsOf(errors, field) + [message]]
  }

  /** One field checked: it gains the message exactly when its value fails, and no other field changes. */
  function CheckField(formData: FormData, errors: ErrorMap, field: string): (r: ErrorMap)
    ensures Entry(r, field) ==
      if FailsRule(Get(formData, field)) then Some(ErrorsOf(errors, field) + [ErrorMessage]) else Entry(errors, field)
    ensures forall f :: f != field ==> Entry(r, f) == Entry(errors, f)
  {
    if FailsRule(Get(formData, field)) then AddedError(errors, field, ErrorMessage) else errors
  }

  /** The fields of `fields` checked in order (a `forEach`); no field outside the list changes. */
  function CheckFields(formData: FormData, fields: seq<string>, errors: ErrorMap): (r: ErrorMap)
    ensures forall f :: f !in fields ==> Entry(r, f) == Entry(errors, f)
  {
    if fields == [] then errors
    else CheckField(formData, CheckFields(formData, fields[..|fields| - 1], errors), fields[|fields| - 1])
  }

  /** The error object after one call of `validate`; a field the call does not check keeps its entry. */
  function ValidatedErrors(formData: FormData, errors: ErrorMap): (r: ErrorMap)
    ensures forall f :: !Checked(formData, f) ==> Entry(r, f) == Entry(errors, f)
  {
    var afterNumeric := CheckFields(formData, NumericFields, errors);
    if WantsSamples(formData) then CheckFields(formData, SampleRangeFields, afterNumeric) else afterNumeric
  }

  /** Whether a call of `validate` looks at the field at all. */
  predicate Checked(formData: FormData, field: string) {
    field in NumericFields || (WantsSamples(formData) && field in SampleRangeFields)
  }

  /** Checking a list of distinct fields adds at most the one message to each, and touches no other field. */
  lemma {:induction false} CheckFieldsEffect(formData: FormData, fields: seq<string>, errors: ErrorMap, field: string)
    requires Distinct(fields)
    ensures Entry(CheckFields(formData, fields, errors), field) ==
      if field in fields && FailsRule(Get(formData, field))
      then Some(ErrorsOf(errors, field) + [ErrorMessage])
      else Entry(errors, field)
  {
    if fields != [] {
      var front := fields[..|fields| - 1];
      assert forall x :: x in fields <==> x in front || x == fields[|fields| - 1];
      CheckFieldsEffect(formData, front, errors, field);
    }
  }

  /** The whole effect of `validate` on any one field. */
  lemma ValidateEffect(formData: FormData, errors: ErrorMap, field: string)
    ensures Entry(ValidatedErrors(formData, errors), field) ==
      if Checked(formData, field) && FailsRule(Get(formData, field))
      then Some(ErrorsOf(errors, field) + [ErrorMessage])
      else Entry(errors, field)
  {
    var afterNumeric := CheckFields(formData, NumericFields, errors);
    CheckFieldsEffect(formData, NumericFields, errors, field);
    if WantsSamples(formData) {
      CheckFieldsEffect(formData, SampleRangeFields, afterNumeric, field);
    }
  }

  /** "Default" and an undefined value are never flagged, whatever the field. */
  lemma DefaultOrAbsentNeverFlagged(formData: FormData, errors: ErrorMap, field: string)
    requires Get(formData, field) == None || Get(formData, field) == Some("Default")
    ensures Entry(ValidatedErrors(formData, errors), field) == Entry(errors, field)
  {
    ValidateEffect(formData, errors, field);
  }

  /**
   * A present value other than "Default" in one of the three record fields gets the
   * message exactly when it fails the pattern, and then exactly once.
   */
  lemma NumericFieldFlaggedIffNotPositiveInt(formData: FormData, errors: ErrorMap, field: string)
    requires field in NumericFields
    requires field in formData && formData[field] != "Default"
    ensures ErrorsOf(ValidatedErrors(formData, errors), field) ==
      if MatchesPositiveInt(formData[field]) then ErrorsOf(errors, field)
      else ErrorsOf(errors, field) + [ErrorMessage]
  {
    ValidateEffect(formData, errors, field);
  }

  /** The sample range is checked like the record fields when samples are requested, and left alone otherwise. */
  lemma SampleRangeCheckedIffRequested(formData: FormData, errors: ErrorMap, field: string)
    requires field in SampleRangeFields
    ensures !WantsSamples(formData) ==> Entry(ValidatedErrors(formData, errors), field) == Entry(errors, field)
    ensures WantsSamples(formData) && field in formData && formData[field] != "Default" ==>
      ErrorsOf(ValidatedErrors(formData, errors), field) ==
        if MatchesPositiveInt(formData[field]) then ErrorsOf(errors, field)
        else ErrorsOf(errors, field) + [ErrorMessage]
  {
    ValidateEffect(formData, errors, field);
  }

  /** No field outside the five is ever touched. */
  lemma OtherFieldsUntouched(formData: FormData, errors: ErrorMap, field: string)
    requires field !in NumericFields && field !in SampleRangeFields
    ensures Entry(ValidatedErrors(formData, errors), field) == Entry(errors, field)
  {
    ValidateEffect(formData, errors, field);
  }

  /** A leading zero is rejected; the sentinel is not. */
  lemma LeadingZeroRejected(errors: ErrorMap)
    ensures ErrorsOf(ValidatedErrors(map[StartRecord := "007"], errors), StartRecord) ==
      ErrorsOf(errors, StartRecord) + [ErrorMessage]
    ensures Entry(ValidatedErrors(map[StartRecord := "Default"], errors), StartRecord) == Entry(errors, StartRecord)
  {
    PatternExamples();
    NumericFieldFlaggedIffNotPositiveInt(map[StartRecord := "007"], errors, StartRecord);
    DefaultOrAbsentNeverFlagged(map[StartRecord := "Default"], errors, StartRecord);
  }

  // ---------------------------------------------------------------------------
  // The error object and `validate` itself
  // ---------------------------------------------------------------------------

  /** The renderer's error object as far as `validate` uses it: a list of messages per field. */
  class ErrorSchema {
    var errors: ErrorMap

    constructor (initial: ErrorMap)
      ensures errors == initial
    {
      errors := initial;
    }

    /** `errors[field].addError(message)`. */
    method AddError(field: string, message: string)
      modifies this
      ensures errors == AddedError(old(errors), field, message)
    {
      errors := errors[field := ErrorsOf(errors, field) + [message]];
    }
  }

  /** `validate(formData, errors)`: updates the error object in place and returns it. */
  method Validate(formData: FormData, errors: ErrorSchema) returns (r: ErrorSchema)
    modifies errors
    ensures r == errors
    ensures errors.errors == ValidatedErrors(formData, old(errors.errors))
  {
    var numericFields := NumericFields;
    for i := 0 to |numericFields|
      invariant errors.errors == CheckFields(formData, numericFields[..i], old(errors.errors))
    {
      var field := numericFields[i];
      var val := Get(formData, field);
      if val != Some("Default") && val != None && !MatchesPositiveInt(val.value) {
        errors.AddError(field, ErrorMessage);
      }
      assert numericFields[..i + 1][..i] == numericFields[..i];
    }
    assert numericFields[..|numericFields|] == numericFields;

    if Get(formData, NeedsSampleOutput) == Some("Yes") {
      var afterNumeric := errors.errors;
      var sampleFields := SampleRangeFields;
      for i := 0 to |sampleFields|
        invariant errors.errors == CheckFields(formData, sampleFields[..i], afterNumeric)
      {
        var field := sampleFields[i];
        var val := Get(formData, field);
        if val != Some("Default") && val != None && !MatchesPositiveInt(val.value) {
          errors.AddError(field, ErrorMessage);
        }
        assert sampleFields[..i + 1][..i] == sampleFields[..i];
      }
      assert sampleFields[..|sampleFields|] == sampleFields;
    }
    r := errors;
  }
}
