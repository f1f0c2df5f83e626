// The parts of Angular reactive forms that the lesson and course forms rely
// on: the built-in validators `required`, `minLength`, `maxLength`, `min`
// and `max`, and the error text both forms' `getFieldError` build from them.
module Forms {
  import opened Wrappers
  import opened Strings

  /**
   * The errors object of one control; each validator that fails leaves its
   * key (with the limit it was given), the others leave nothing.
   */
  datatype Errors = Errors(required: bool, minLength: Option<nat>, maxLength: Option<nat>, min: Option<int>, max: Option<int>)

  const NoErrors := Errors(false, None, None, None, None)

  /**
   * A text control. `required` fails on ""; `minLength` skips the empty
   * value and fails on a shorter one; `maxLength` fails on a longer one.
   * Lengths are JavaScript lengths, in UTF-16 code units.
   */
  function TextErrors(v: string, required: bool, minLen: Option<nat>, maxLen: Option<nat>): (e: Errors)
    ensures e == NoErrors <==>
      (!required || |v| > 0) &&
      (minLen.None? || |v| == 0 || Utf16Length(v) >= minLen.value) &&
      (maxLen.None? || Utf16Length(v) <= maxLen.value)
  {
    var n := Utf16Length(v);
    Errors(
      required && n == 0,
      if minLen.Some? && 0 < n < minLen.value then minLen else None,
      if maxLen.Some? && n > maxLen.value then maxLen else None,
      None, None)
  }

  /**
   * A number control, `None` standing for the empty value. `required`
   * fails on it; `min` and `max` skip it and compare any other value.
   */
  function NumberErrors(v: Option<int>, required: bool, min: Option<int>, max: Option<int>): (e: Errors)
    ensures e == NoErrors <==>
      (!required || v.Some?) &&
      (min.None? || v.None? || v.value >= min.value) &&
      (max.None? || v.None? || v.value <= max.value)
  {
    Errors(
      required && v.None?,
      None, None,
      if min.Some? && v.Some? && v.value < min.value then min else None,
      if max.Some? && v.Some? && v.value > max.value then max else None)
  }

  /**
   * getFieldError: nothing for an untouched or valid control, otherwise the
   * first failing check of required, minlength, maxlength, min, max.
   */
  function FieldMessage(caption: string, e: Errors, touched: bool): (r: string)
    ensures r == "" <==> !touched || e == NoErrors
    ensures touched && e.required ==> r == caption + " is required"
    ensures touched && !e.required && e.minLength.Some? ==>
      r == caption + " must be at least " + NatToString(e.minLength.value) + " characters"
  {
    if !touched || e == NoErrors then ""
    else if e.required then caption + " is required"
    else if e.minLength.Some? then caption + " must be at least " + NatToString(e.minLength.value) + " characters"
    else if e.maxLength.Some? then caption + " must not exceed " + NatToString(e.maxLength.value) + " characters"
    else if e.min.Some? then caption + " must be at least " + IntToString(e.min.value)
    else if e.max.Some? then caption + " must not exceed " + IntToString(e.max.value)
    else ""
  }

  /** A text control fails exactly one of its checks, so its message names that check. */
  lemma {:induction false} TextMessage(caption: string, v: string, minLen: nat, maxLen: nat)
    requires 1 <= minLen <= maxLen
    ensures |v| == 0 ==> FieldMessage(caption, TextErrors(v, true, Some(minLen), Some(maxLen)), true) == caption + " is required"
    ensures 0 < |v| && Utf16Length(v) < minLen ==>
      FieldMessage(caption, TextErrors(v, true, Some(minLen), Some(maxLen)), true) ==
        caption + " must be at least " + NatToString(minLen) + " characters"
    ensures Utf16Length(v) > maxLen ==>
      FieldMessage(caption, TextErrors(v, true, Some(minLen), Some(maxLen)), true) ==
        caption + " must not exceed " + NatToString(maxLen) + " characters"
    ensures minLen <= Utf16Length(v) <= maxLen ==> FieldMessage(caption, TextErrors(v, true, Some(minLen), Some(maxLen)), true) == ""
  {
  }
}
