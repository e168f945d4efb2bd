/** How the REST framework's serializer fields turn a submitted value into a
    validated one. Every string field the serializers use is a CharField (or an
    EmailField, a CharField with one more validator) with the framework's
    defaults: surrounding whitespace is trimmed, a blank value is refused unless
    blanks are allowed, then every validator runs and all their messages are
    reported together. */
module SerializerFields {
  import opened Common

  /** One field's outcome: not submitted (and not required), a value, or its messages. */
  datatype FieldResult<T> = Skipped | Value(value: T) | Invalid(messages: seq<string>)

  const RequiredMessage := "This field is required."
  const BlankMessage := "This field may not be blank."
  const NullCharacterMessage := "Null characters are not allowed."

  function MaxLengthMessage(limit: nat): string {
    "Ensure this field has no more than " + DecimalString(limit) + " characters."
  }

  /** The validators a CharField runs, in order: those passed to it (a model field's own
      validators), max_length, the null-character check, then any a subclass appends
      after construction (EmailField's address check). */
  function ValidatorMessages(v: string, maxLength: Option<nat>, validators: string -> seq<string>,
                             appended: string -> seq<string>): seq<string> {
    validators(v)
    + (if maxLength.Some? && |v| > maxLength.value then [MaxLengthMessage(maxLength.value)] else [])
    + (if '\0' in v then [NullCharacterMessage] else [])
    + appended(v)
  }

  /** CharField.run_validation with trim_whitespace. `required` is false for a field
      the model gives a default or allows blank, and for every field of a partial update. */
  function CharInput(raw: Option<string>, required: bool, allowBlank: bool, maxLength: Option<nat>,
                     validators: string -> seq<string>, appended: string -> seq<string>): (r: FieldResult<string>)
    ensures raw.None? ==> r == (if required then Invalid([RequiredMessage]) else Skipped)
    ensures raw.Some? && AllSpace(raw.value) ==> r == (if allowBlank then Value("") else Invalid([BlankMessage]))
    ensures r.Value? ==> raw.Some? && r.value == Strip(raw.value)
    ensures r.Value? && r.value != [] ==>
              && (maxLength.Some? ==> |r.value| <= maxLength.value)
              && validators(r.value) == [] && appended(r.value) == []
              && '\0' !in r.value
    ensures raw.Some? && !AllSpace(raw.value) ==>
              (r.Value? <==> ValidatorMessages(Strip(raw.value), maxLength, validators, appended) == [])
    ensures r.Invalid? && raw.Some? && !AllSpace(raw.value) ==>
              r.messages == ValidatorMessages(Strip(raw.value), maxLength, validators, appended)
    ensures r.Skipped? ==> raw.None? && !required
  {
    match raw
    case None => if required then Invalid([RequiredMessage]) else Skipped
    case Some(s) =>
      var v := Strip(s);
      if v == [] then (if allowBlank then Value("") else Invalid([BlankMessage]))
      else
        var messages := ValidatorMessages(v, maxLength, validators, appended);
        if messages == [] then Value(v) else Invalid(messages)
  }

  /** A CharField with no validators of its own. */
  function NoValidators(v: string): seq<string> { [] }
}
