/** A value that may be absent: JavaScript's `undefined` at the model's boundary. */
module Optional {

  datatype Option<+T> = None | Some(value: T)

  /** `!v` for a value read through optional chaining (`doc?.flag`): a missing
      value is `undefined`, and `!undefined` is `true`. */
  function NegateOptional(v: Option<bool>): (r: bool)
    ensures v.None? ==> r
    ensures v.Some? ==> r != v.value
  {
    match v
    case None => true
    case Some(b) => !b
  }
}
