/** The optional value used wherever the source reads a value that may be
    `undefined` (an absent pixel, an absent owner, a missing form field). */
module Options {

  datatype Option<+T> = None | Some(value: T)
  {
    /** Applies `f` to the carried value, keeping `None` as it is (JavaScript's `x?.f()`). */
    function Map<U>(f: T -> U): (r: Option<U>)
      ensures r.Some? <==> Some?
      ensures Some? ==> r.value == f(value)
    {
      match this
      case None => None
      case Some(v) => Some(f(v))
    }
  }
}
