/** A cell that pandas may hold as missing (NaN, NaT, None). */
module Nullable {

  datatype Option<+T> = None | Some(value: T)

  /** Series.fillna(d) on one cell. */
  function GetOr<T>(o: Option<T>, d: T): (r: T)
    ensures o.None? ==> r == d
    ensures o.Some? ==> r == o.value
  {
    match o
    case None => d
    case Some(v) => v
  }
}
