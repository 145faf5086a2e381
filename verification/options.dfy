/** The optional argument lists of npm_rs (`Option<&[&str]>`). */
module Options {

  datatype Option<+T> = None | Some(value: T)

  /** `Option<&[T]>::unwrap_or_default`: a missing list is the empty list. */
  function OrEmpty<T>(o: Option<seq<T>>): seq<T>
  {
    match o
    case None => []
    case Some(xs) => xs
  }
}
