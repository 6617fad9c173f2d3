/** What the three record forms share: the errors record, the input number rule, the submit outcome. */
module Forms {
  import opened Wrappers

  /**
   * `Record<string, string>` keyed by field name: a message per field; `""` is a cleared
   * message. Each form names its fields with a datatype `K`.
   */
  type Errors<K> = map<K, string>

  /**
   * `if (errors[name]) setErrors({ ...errors, [name]: "" })`: a change to a field blanks its
   * own message and leaves every other entry, and the set of keys, as they were.
   */
  function ClearError<K>(errors: Errors<K>, name: K): (r: Errors<K>)
    ensures r.Keys == errors.Keys
    ensures name in r ==> r[name] == ""
    ensures forall k :: k in errors && k != name ==> r[k] == errors[k]
  {
    if name in errors && errors[name] != "" then errors[name := ""] else errors
  }

  /**
   * `parseInt(value, 10) || 0`, given what `parseInt` returned (`None` for NaN): NaN and 0
   * both give 0, any other number is kept.
   */
  function NumberOrZero(parsed: Option<int>): (n: int)
    ensures n == 0 <==> parsed.None? || parsed.value == 0
    ensures n != 0 ==> parsed == Some(n)
  {
    if parsed.Some? && parsed.value != 0 then parsed.value else 0
  }

  /** What a submit asks of the data store: nothing, an add, or an update of `editId`. */
  datatype StoreCall<T> = NoCall | Add(record: T) | Update(id: string, record: T)
}
