/** Form state as the pages keep it: the field values and the per-field error
    messages, each a JavaScript object of texts. */
module Forms {

  type Fields = map<string, string>

  datatype FormState = FormState(values: Fields, errors: Fields)

  /** A change to the input called `name` (`handleChange` of the event form;
      `handleTaskFormChange` and the task page's `handleFormChange` are the
      same code): that field takes the new value and every other field keeps
      its own; that field's error, if one is set, becomes "" and every other
      error stays as it was. */
  function HandleChange(s: FormState, name: string, value: string): (r: FormState)
    ensures r.values.Keys == s.values.Keys + {name} && r.values[name] == value
    ensures forall k :: k in s.values && k != name ==> r.values[k] == s.values[k]
    ensures r.errors.Keys == s.errors.Keys
    ensures name in s.errors ==> r.errors[name] == ""
    ensures forall k :: k in s.errors && k != name ==> r.errors[k] == s.errors[k]
  {
    var values := s.values[name := value];
    if name in s.errors && s.errors[name] != "" then
      FormState(values, s.errors[name := ""])
    else
      FormState(values, s.errors)
  }

  /** The same change made twice is the change made once. */
  lemma HandleChangeIdempotent(s: FormState, name: string, value: string)
    ensures HandleChange(HandleChange(s, name, value), name, value) == HandleChange(s, name, value)
  {
  }
}
