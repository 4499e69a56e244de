/** The optional value used across the model for the source's `null` and `undefined`. */
module Options {
  datatype Option<+T> = None | Some(value: T)

  /** A string that counts as true: present, and not empty. */
  predicate Given(s: Option<string>) { s.Some? && s.value != "" }
}
