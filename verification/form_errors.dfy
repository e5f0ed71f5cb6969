/**
 * The error maps both public forms keep: one message per field name, shown while it
 * is a non-empty (truthy) string.
 */
module FormErrors {

  /**
   * `if (errors[name]) setErrors(prev => ({ ...prev, [name]: '' }))`: typing in a
   * field blanks that field's message, keeps its key, and leaves every other field alone.
   */
  function ClearError<K>(errors: map<K, string>, field: K): (r: map<K, string>)
    ensures r.Keys == errors.Keys
    ensures field in r ==> r[field] == ""
    ensures forall g :: g in errors && g != field ==> r[g] == errors[g]
  {
    if field in errors && errors[field] != "" then errors[field := ""] else errors
  }

  /** The messages a form shows: the fields whose message is a non-empty string. */
  function Shown<K(!new)>(errors: map<K, string>): (fields: set<K>)
    ensures forall g :: g in fields <==> g in errors && errors[g] != ""
  {
    set g | g in errors && errors[g] != ""
  }

  /** After typing in a field its message is hidden and the others show exactly as before. */
  lemma ClearErrorHidesOnlyThatField<K(!new)>(errors: map<K, string>, field: K)
    ensures Shown(ClearError(errors, field)) == Shown(errors) - {field}
  {
  }
}
