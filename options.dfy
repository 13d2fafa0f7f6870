/** The optional value used for the fields of a partial task and for the
    currently selected task id (`null` or a string). */
module Options {

  datatype Option<T> = None | Some(value: T)

  /** The value held by `o`, or `default` when there is none. */
  function GetOr<T>(o: Option<T>, default: T): (r: T)
    ensures o.Some? ==> r == o.value
    ensures o.None? ==> r == default
  {
    match o
    case Some(v) => v
    case None => default
  }
}
