/** Optional values, and the truthiness test that JavaScript applies to a string that may be absent. */
module Optional {

  datatype Option<+T> = None | Some(value: T)

  /** `!x` is false for a string x exactly when x is present and not empty. */
  predicate Truthy(s: Option<string>)
  {
    s.Some? && s.value != ""
  }
}
